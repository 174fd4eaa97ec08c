/**
 * The clipboard loop of `ImageToMarkdown.process_clipboard_image`
 * (GPTOCRGUI.py), as a function of the clipboard reads it sees. One step is
 * one pass of the loop body; the `try` around it turns any failure (reading
 * the clipboard, transcribing, copying) into a log line, the `'error'` icon
 * and the end of the loop.
 */
module CaptureLoop {
  import opened Common
  import opened Transcription

  /** What `ImageGrab.grabclipboard()` gives: no image, an image, or an error. */
  datatype Clip = NotImage | Img(image: Image) | ReadFail(error: string)

  /** What the loop does that can be seen from outside: log lines, icon
      statuses and clipboard writes. */
  datatype Event = Log(message: string) | Icon(status: string) | Copy(text: string)

  const NewImageLog: string := "检测到新的剪贴板图像。"
  const CopiedLog: string := "识别后的内容已复制到剪贴板。"
  const ErrorLog: string := "发生错误: "

  /** The effect of one pass of the loop body, and whether it ended the loop. */
  datatype StepResult = StepResult(events: seq<Event>, last: Option<Image>, failed: bool)

  /** The `except` branch for error `e`. */
  function Failed(e: string): seq<Event> {
    [Log(ErrorLog + e), Icon("error")]
  }

  /** Whether the read is an image other than the last one handled. */
  predicate IsNew(clip: Clip, last: Option<Image>) {
    clip.Img? && last != Some(clip.image)
  }

  /** Whether `image` is transcribed and the result is copied without error. */
  predicate Delivered(image: Image, transcribe: Image -> Result<string>, copy: string -> Option<string>) {
    var md := transcribe(image);
    md.Success? && copy(md.value).None?
  }

  /**
   * One pass: a read that is not a new image does nothing; a new image is
   * announced, transcribed and copied, and becomes `last` only when both
   * succeeded. `copy` gives the error `pyperclip.copy` raises, if any.
   */
  function Step(last: Option<Image>, clip: Clip,
                transcribe: Image -> Result<string>, copy: string -> Option<string>): (r: StepResult)
    ensures !IsNew(clip, last) && !clip.ReadFail? ==> r == StepResult([], last, false)
    ensures r.failed <==> clip.ReadFail? || (IsNew(clip, last) && !Delivered(clip.image, transcribe, copy))
    ensures r.last == if IsNew(clip, last) && !r.failed then Some(clip.image) else last
    ensures clip.ReadFail? ==> r.events == Failed(clip.error)
    ensures IsNew(clip, last) && transcribe(clip.image).Failure? ==>
              r.events == [Log(NewImageLog), Icon("processing")] + Failed(transcribe(clip.image).error)
    ensures IsNew(clip, last) && transcribe(clip.image).Success? && copy(transcribe(clip.image).value).Some? ==>
              r.events == [Log(NewImageLog), Icon("processing")]
                          + Failed(copy(transcribe(clip.image).value).value)
    ensures IsNew(clip, last) && Delivered(clip.image, transcribe, copy) ==>
              r.events == [Log(NewImageLog), Icon("processing"), Copy(transcribe(clip.image).value),
                           Log(CopiedLog), Icon("success")]
  {
    match clip
    case ReadFail(e) => StepResult(Failed(e), last, true)
    case NotImage => StepResult([], last, false)
    case Img(x) =>
      if last == Some(x) then StepResult([], last, false)
      else
        var start := [Log(NewImageLog), Icon("processing")];
        var md := transcribe(x);
        if md.Failure? then StepResult(start + Failed(md.error), last, true)
        else
          var err := copy(md.value);
          if err.Some? then StepResult(start + Failed(err.value), last, true)
          else StepResult(start + [Copy(md.value), Log(CopiedLog), Icon("success")], Some(x), false)
  }

  /** Where the loop stands after a run of reads. */
  datatype Outcome = Outcome(events: seq<Event>, last: Option<Image>, running: bool, consumed: nat)

  /**
   * The loop over a finite run of reads, starting with `running` set. It stops
   * at the first failure, with `running` cleared; otherwise it has consumed all
   * the reads and is still running.
   */
  function Run(last: Option<Image>, clips: seq<Clip>,
               transcribe: Image -> Result<string>, copy: string -> Option<string>): (o: Outcome)
    ensures o.running ==> o.consumed == |clips|
    ensures !o.running ==> 0 < o.consumed <= |clips|
    decreases |clips|
  {
    if clips == [] then Outcome([], last, true, 0)
    else
      var st := Step(last, clips[0], transcribe, copy);
      if st.failed then Outcome(st.events, last, false, 1)
      else
        var rest := Run(st.last, clips[1..], transcribe, copy);
        Outcome(st.events + rest.events, rest.last, rest.running, 1 + rest.consumed)
  }

  /** The statuses among the events, in order. */
  function Statuses(events: seq<Event>): (ss: seq<string>)
    ensures |ss| <= |events|
  {
    if events == [] then []
    else (if events[0].Icon? then [events[0].status] else []) + Statuses(events[1..])
  }

  lemma {:induction false} StatusesAppend(a: seq<Event>, b: seq<Event>)
    ensures Statuses(a + b) == Statuses(a) + Statuses(b)
    decreases |a|
  {
    if a == [] {
      assert a + b == b;
    } else {
      var head: seq<string> := if a[0].Icon? then [a[0].status] else [];
      assert (a + b)[0] == a[0] && (a + b)[1..] == a[1..] + b;
      assert Statuses(a + b) == head + Statuses(a[1..] + b);
      assert Statuses(a) == head + Statuses(a[1..]);
      StatusesAppend(a[1..], b);
    }
  }

  /**
   * The status sequences the loop can show: `'processing'` then `'success'`
   * for each image handled, and at the end possibly an `'error'`, right after
   * the `'processing'` of the image that failed or on its own when the read failed.
   */
  predicate StatusFlow(ss: seq<string>)
    decreases |ss|
  {
    ss == [] || ss == ["error"] || ss == ["processing", "error"]
    || (|ss| >= 2 && ss[0] == "processing" && ss[1] == "success" && StatusFlow(ss[2..]))
  }

  /** Every run of the loop shows statuses in that order. */
  lemma {:induction false} RunStatusFlow(last: Option<Image>, clips: seq<Clip>,
                                         transcribe: Image -> Result<string>, copy: string -> Option<string>)
    ensures StatusFlow(Statuses(Run(last, clips, transcribe, copy).events))
    decreases |clips|
  {
    if clips != [] {
      var st := Step(last, clips[0], transcribe, copy);
      var ss := Statuses(st.events);
      StepStatuses(last, clips[0], transcribe, copy);
      if !st.failed {
        var rest := Run(st.last, clips[1..], transcribe, copy);
        RunStatusFlow(st.last, clips[1..], transcribe, copy);
        StatusesAppend(st.events, rest.events);
        FlowPrefix(ss, Statuses(rest.events));
      }
    }
  }

  /** The statuses one pass shows. */
  lemma StepStatuses(last: Option<Image>, clip: Clip,
                     transcribe: Image -> Result<string>, copy: string -> Option<string>)
    ensures var st := Step(last, clip, transcribe, copy);
            var ss := Statuses(st.events);
            if st.failed then ss == ["error"] || ss == ["processing", "error"]
            else ss == [] || ss == ["processing", "success"]
  {
    var st := Step(last, clip, transcribe, copy);
    if clip.ReadFail? {
      assert st.events == Failed(clip.error);
      Statuses2(Log(ErrorLog + clip.error), Icon("error"));
    } else if IsNew(clip, last) {
      var start := [Log(NewImageLog), Icon("processing")];
      Statuses2(Log(NewImageLog), Icon("processing"));
      var md := transcribe(clip.image);
      if md.Failure? {
        assert st.failed && st.events == start + Failed(md.error);
        Statuses2(Log(ErrorLog + md.error), Icon("error"));
        StatusesAppend(start, Failed(md.error));
        assert Statuses(st.events) == ["processing", "error"];
      } else {
        var err := copy(md.value);
        if err.Some? {
          assert st.failed && st.events == start + Failed(err.value);
          Statuses2(Log(ErrorLog + err.value), Icon("error"));
          StatusesAppend(start, Failed(err.value));
          assert Statuses(st.events) == ["processing", "error"];
        } else {
          var tail := [Copy(md.value), Log(CopiedLog), Icon("success")];
          assert !st.failed && st.events == start + tail;
          Statuses2(Log(CopiedLog), Icon("success"));
          assert tail[1..] == [Log(CopiedLog), Icon("success")];
          StatusesAppend(start, tail);
          assert Statuses(st.events) == ["processing", "success"];
        }
      }
    } else {
      assert st.events == [];
    }
  }

  lemma Statuses2(a: Event, b: Event)
    requires !a.Icon? && b.Icon?
    ensures Statuses([a, b]) == [b.status]
  {
    assert [a, b][1..] == [b] && [b][1..] == [];
  }

  lemma FlowPrefix(ss: seq<string>, rest: seq<string>)
    requires ss == [] || ss == ["processing", "success"]
    requires StatusFlow(rest)
    ensures StatusFlow(ss + rest)
  {
    if ss != [] {
      assert (ss + rest)[2..] == rest;
    } else {
      assert ss + rest == rest;
    }
  }

  /** A read that is no image, or the last image again, changes nothing. */
  lemma {:induction false} RunSkipsSeen(last: Option<Image>, clips: seq<Clip>,
                                        transcribe: Image -> Result<string>, copy: string -> Option<string>)
    requires forall k :: 0 <= k < |clips| ==> clips[k] == NotImage || (last.Some? && clips[k] == Img(last.value))
    ensures Run(last, clips, transcribe, copy) == Outcome([], last, true, |clips|)
    decreases |clips|
  {
    if clips != [] {
      RunSkipsSeen(last, clips[1..], transcribe, copy);
    }
  }

  /** Once the loop has stopped, later reads are never consumed. */
  lemma {:induction false} RunIgnoresLater(last: Option<Image>, clips: seq<Clip>, more: seq<Clip>,
                                           transcribe: Image -> Result<string>, copy: string -> Option<string>)
    requires !Run(last, clips, transcribe, copy).running
    ensures Run(last, clips + more, transcribe, copy) == Run(last, clips, transcribe, copy)
    decreases |clips|
  {
    assert (clips + more)[0] == clips[0];
    var st := Step(last, clips[0], transcribe, copy);
    if !st.failed {
      assert (clips + more)[1..] == clips[1..] + more;
      RunIgnoresLater(st.last, clips[1..], more, transcribe, copy);
    }
  }

  /** The loop stops on a failure only, and its last status is then `'error'`. */
  lemma {:induction false} RunStopsOnError(last: Option<Image>, clips: seq<Clip>,
                                           transcribe: Image -> Result<string>, copy: string -> Option<string>)
    requires !Run(last, clips, transcribe, copy).running
    ensures var o := Run(last, clips, transcribe, copy);
            var ss := Statuses(o.events);
            ss != [] && ss[|ss| - 1] == "error"
            && (clips[o.consumed - 1].ReadFail?
                || (clips[o.consumed - 1].Img? && !Delivered(clips[o.consumed - 1].image, transcribe, copy)))
    decreases |clips|
  {
    var st := Step(last, clips[0], transcribe, copy);
    StepStatuses(last, clips[0], transcribe, copy);
    if !st.failed {
      var rest := Run(st.last, clips[1..], transcribe, copy);
      RunStopsOnError(st.last, clips[1..], transcribe, copy);
      StatusesAppend(st.events, rest.events);
      assert clips[1..][rest.consumed - 1] == clips[rest.consumed];
    }
  }

  /** `last_image` only ever becomes an image that was read, transcribed and copied. */
  lemma {:induction false} RunLastDelivered(last: Option<Image>, clips: seq<Clip>,
                                            transcribe: Image -> Result<string>, copy: string -> Option<string>)
    ensures var o := Run(last, clips, transcribe, copy);
            o.last == last
            || (o.last.Some? && Delivered(o.last.value, transcribe, copy)
                && exists k :: 0 <= k < o.consumed && clips[k] == Img(o.last.value))
    decreases |clips|
  {
    if clips != [] {
      var st := Step(last, clips[0], transcribe, copy);
      if !st.failed {
        var o := Run(st.last, clips[1..], transcribe, copy);
        RunLastDelivered(st.last, clips[1..], transcribe, copy);
        if o.last != st.last {
          var k :| 0 <= k < o.consumed && clips[1..][k] == Img(o.last.value);
          assert clips[k + 1] == Img(o.last.value);
        } else if st.last != last {
          assert clips[0] == Img(o.last.value);
        }
      }
    }
  }

  /**
   * Whatever the loop writes to the clipboard is the transcription of an image
   * it read, and that write did not fail.
   */
  lemma {:induction false} RunCopies(last: Option<Image>, clips: seq<Clip>,
                                     transcribe: Image -> Result<string>, copy: string -> Option<string>, i: nat)
    requires i < |Run(last, clips, transcribe, copy).events|
    requires Run(last, clips, transcribe, copy).events[i].Copy?
    ensures var o := Run(last, clips, transcribe, copy);
            exists k :: 0 <= k < o.consumed && clips[k].Img?
                        && transcribe(clips[k].image) == Success(o.events[i].text)
                        && copy(o.events[i].text).None?
    decreases |clips|
  {
    var o := Run(last, clips, transcribe, copy);
    var st := Step(last, clips[0], transcribe, copy);
    if i < |st.events| {
      assert o.events[i] == st.events[i];
      StepCopies(last, clips[0], transcribe, copy, i);
      assert 0 < o.consumed;
    } else {
      var rest := Run(st.last, clips[1..], transcribe, copy);
      assert o.events == st.events + rest.events;
      assert o.events[i] == rest.events[i - |st.events|];
      RunCopies(st.last, clips[1..], transcribe, copy, i - |st.events|);
      var k :| 0 <= k < rest.consumed && clips[1..][k].Img?
               && transcribe(clips[1..][k].image) == Success(o.events[i].text)
               && copy(o.events[i].text).None?;
      assert clips[k + 1] == clips[1..][k];
    }
  }

  /** The one clipboard write of a pass copies the transcription of its new image. */
  lemma StepCopies(last: Option<Image>, clip: Clip,
                   transcribe: Image -> Result<string>, copy: string -> Option<string>, i: nat)
    requires i < |Step(last, clip, transcribe, copy).events| && Step(last, clip, transcribe, copy).events[i].Copy?
    ensures var t := Step(last, clip, transcribe, copy).events[i].text;
            clip.Img? && transcribe(clip.image) == Success(t) && copy(t).None?
  {
  }

  /** One more pass of the loop, in terms of the run of all the reads. */
  lemma RunAdvance(whole: Outcome, events: seq<Event>, last: Option<Image>, clips: seq<Clip>, i: nat,
                   transcribe: Image -> Result<string>, copy: string -> Option<string>)
    requires i < |clips|
    requires var o := Run(last, clips[i..], transcribe, copy);
             whole == Outcome(events + o.events, o.last, o.running, i + o.consumed)
    ensures var st := Step(last, clips[i], transcribe, copy);
            if st.failed then whole == Outcome(events + st.events, whole.last, false, i + 1)
            else
              var o := Run(st.last, clips[i + 1..], transcribe, copy);
              whole == Outcome(events + st.events + o.events, o.last, o.running, i + 1 + o.consumed)
  {
    var rest := clips[i..];
    assert rest[0] == clips[i] && rest[1..] == clips[i + 1..];
    var st := Step(last, clips[i], transcribe, copy);
    if !st.failed {
      var o := Run(st.last, clips[i + 1..], transcribe, copy);
      assert events + (st.events + o.events) == events + st.events + o.events;
    }
  }
}
