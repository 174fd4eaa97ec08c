/**
 * The pure part of `ImageToMarkdown.process_image` (GPTOCRGUI.py): the
 * data URI the image is sent as, the request, the code-fence strip applied
 * to the reply, and the whole transcription with the network call and the
 * PNG/base64 encoder passed in as functions.
 */
module Transcription {
  import opened Common
  import opened Text
  import Markdown

  /** A clipboard image; images are compared by value, as PIL compares them. */
  datatype Image = Image(pixels: seq<int>)

  /** What an `OpenAI(...)` client is built from: an optional base URL (the
      library's default when absent) and an optional proxy transport. */
  datatype Client = Client(baseUrl: Option<string>, proxy: Option<string>)

  /** The one chat-completion request `process_image` sends. */
  datatype Request = Request(model: string, prompt: string, imageUrl: string, maxTokens: nat)

  const DataUriPrefix: string := "data:image/png;base64,"
  const Prompt: string := "Convert to markdown. Use LaTeX for formulas. Return only markdown content."
  const MaxTokens: nat := 1000
  const NoClientError: string := "请先设置 API Key 或推理接入点"

  // ---------------------------------------------------------------------
  // The data URI
  // ---------------------------------------------------------------------

  /** The base64 text carried by a PNG data URI, if `uri` is one. */
  function DataUriPayload(uri: string): Option<string> {
    if StartsWith(uri, DataUriPrefix) then Some(uri[|DataUriPrefix|..]) else None
  }

  /** `f"data:image/png;base64,{encoded}"`: the payload can be read back unchanged. */
  function DataUri(encoded: string): (r: string)
    ensures DataUriPayload(r) == Some(encoded)
    ensures |r| == |DataUriPrefix| + |encoded|
  {
    DataUriPrefix + encoded
  }

  /** Two different encodings never give the same data URI. */
  lemma DataUriInjective(a: string, b: string)
    requires DataUri(a) == DataUri(b)
    ensures a == b
  {
    assert DataUriPayload(DataUri(a)) == Some(a);
  }

  /** The request for an encoded image: the fixed prompt, the data URI and 1000 tokens. */
  function RequestFor(model: string, encoded: string): (r: Request)
    ensures r.model == model && r.prompt == Prompt && r.maxTokens == MaxTokens
    ensures DataUriPayload(r.imageUrl) == Some(encoded)
  {
    Request(model, Prompt, DataUri(encoded), MaxTokens)
  }

  // ---------------------------------------------------------------------
  // re.sub(r'^```markdown\s*\n(.*?)\n```\s*$', r'\1', text, flags=re.DOTALL)
  // ---------------------------------------------------------------------

  const FenceOpen: string := "```markdown"
  const FenceClose: string := "\n```"

  /** The closing fence stands at `e` and only whitespace follows it, so that
      `\n```\s*$` matches there. */
  predicate ClosesAt(s: string, e: nat) {
    e + 4 <= |s| && s[e..e + 4] == FenceClose && AllSpace(s[e + 4..])
  }

  /** The lazy `(.*?)`: the first end `e`, from `from` on, where the fence closes. */
  function FenceLazy(s: string, from: nat): (r: Option<nat>)
    requires from <= |s|
    ensures r.Some? ==> from <= r.value && ClosesAt(s, r.value)
    ensures r.Some? ==> forall e :: from <= e < r.value ==> !ClosesAt(s, e)
    ensures r.None? ==> forall e :: from <= e <= |s| ==> !ClosesAt(s, e)
    decreases |s| - from
  {
    if ClosesAt(s, from) then Some(from)
    else if from < |s| then FenceLazy(s, from + 1)
    else None
  }

  /**
   * The greedy `\s*` after the opening fence, then `\n`: the run of whitespace
   * of length `w` is tried first, then shorter ones. The result is where the
   * body starts and where it ends.
   */
  function FenceTry(s: string, o: nat, w: nat): (r: Option<(nat, nat)>)
    requires o + w <= |s|
    ensures r.Some? ==> o < r.value.0 <= r.value.1 && r.value.0 <= o + w + 1
                        && ClosesAt(s, r.value.1) && s[r.value.0 - 1] == '\n'
    decreases w
  {
    var e := if o + w < |s| && s[o + w] == '\n' then FenceLazy(s, o + w + 1) else None;
    if e.Some? then Some((o + w + 1, e.value))
    else if w == 0 then None
    else FenceTry(s, o, w - 1)
  }

  /** The body the fence regex captures, when it matches at the start of `s`. */
  function FenceBody(s: string): (r: Option<string>)
  {
    if !StartsWith(s, FenceOpen) then None
    else
      var o := |FenceOpen|;
      var m := FenceTry(s, o, SpacesFrom(s, o));
      if m.Some? then Some(s[m.value.0..m.value.1]) else None
  }

  /** The fence strip of line 110: the captured body when the regex matches, else the text. */
  function StripFence(s: string): (r: string)
    ensures !StartsWith(s, FenceOpen) ==> r == s
    ensures |r| <= |s|
  {
    var b := FenceBody(s);
    if b.Some? then b.value else s
  }

  /** Only whitespace is tried by `FenceTry` before the `\n`. */
  lemma {:induction false} FenceTrySpaces(s: string, o: nat, w: nat)
    requires o + w <= |s| && forall k :: o <= k < o + w ==> IsSpace(s[k])
    ensures var r := FenceTry(s, o, w);
            r.Some? ==> forall k :: o <= k < r.value.0 - 1 ==> IsSpace(s[k])
    decreases w
  {
    var e := if o + w < |s| && s[o + w] == '\n' then FenceLazy(s, o + w + 1) else None;
    if e.None? && w > 0 {
      FenceTrySpaces(s, o, w - 1);
    }
  }

  /** `s` is the opening fence, whitespace `w`, a newline, `body`, the closing
      fence and whitespace `t`. */
  predicate Fenced(s: string, w: string, body: string, t: string) {
    AllSpace(w) && AllSpace(t) && s == FenceOpen + w + "\n" + body + FenceClose + t
  }

  /** A matched fence really has the shape the regex describes. */
  lemma FenceSound(s: string)
    requires FenceBody(s).Some?
    ensures exists w: string, t: string :: Fenced(s, w, FenceBody(s).value, t)
  {
    var o := |FenceOpen|;
    SpacesFromRun(s, o);
    FenceTrySpaces(s, o, SpacesFrom(s, o));
    var m := FenceTry(s, o, SpacesFrom(s, o));
    var b, e := m.value.0, m.value.1;
    var w, t := s[o..b - 1], s[e + 4..];
    assert AllSpace(w);
    FenceParts(s, o, b, e);
    assert Fenced(s, w, s[b..e], t);
  }

  /** How `s` falls apart around the matched fence. */
  lemma FenceParts(s: string, o: nat, b: nat, e: nat)
    requires StartsWith(s, FenceOpen) && o == |FenceOpen| && o < b <= e && e + 4 <= |s|
    requires s[b - 1] == '\n' && s[e..e + 4] == FenceClose
    ensures s == FenceOpen + s[o..b - 1] + "\n" + s[b..e] + FenceClose + s[e + 4..]
  {
    assert s == s[..o] + s[o..b - 1] + s[b - 1..b] + s[b..e] + s[e..e + 4] + s[e + 4..];
    assert s[..o] == FenceOpen && s[b - 1..b] == "\n";
  }

  /**
   * Text of the exact fenced form `` ```markdown `` + whitespace + newline +
   * body + newline + `` ``` `` + whitespace is reduced to its body, when the
   * body is empty or does not start with whitespace (leading whitespace up to
   * a newline would be taken by `\s*`). The body may hold closing fences of its own:
   * the regex can only close where nothing but whitespace follows, so the
   * lazy `(.*?)` still ends at the last one.
   */
  lemma StripFenceExact(w: string, body: string, t: string)
    requires AllSpace(w) && AllSpace(t)
    requires body == [] || !IsSpace(body[0])
    ensures StripFence(FenceOpen + w + "\n" + body + FenceClose + t) == body
  {
    if body == [] {
      StripFenceEmpty(w, t);
      return;
    }
    var s := FenceOpen + w + "\n" + body + FenceClose + t;
    var o := |FenceOpen|;
    var b := o + |w| + 1;
    var e := b + |body|;
    ExactParts(w, body, t);
    assert StartsWith(s, FenceOpen);
    SpacesFromUnique(s, o, |w| + 1);
    ExactCloses(s, b, e);
    assert !IsSpace(body[0]) && s[b] == body[0];
    assert FenceTry(s, o, |w| + 1) == FenceTry(s, o, |w|);
    assert FenceLazy(s, b) == Some(e);
  }

  /**
   * An empty body: the greedy `\s*` first takes both newlines and fails on the
   * backtick, then gives back the second newline, after which no fence closes,
   * and then the first, after which the fence closes at once.
   */
  lemma StripFenceEmpty(w: string, t: string)
    requires AllSpace(w) && AllSpace(t)
    ensures StripFence(FenceOpen + w + "\n" + [] + FenceClose + t) == []
  {
    var s := FenceOpen + w + "\n" + [] + FenceClose + t;
    var o := |FenceOpen|;
    var b := o + |w| + 1;
    ExactParts(w, [], t);
    assert StartsWith(s, FenceOpen);
    assert ClosesAt(s, b);
    assert s[b] == '\n' && s[b + 1] == '`';
    SpacesFromUnique(s, o, |w| + 2);
    forall k | b + 1 <= k <= |s| ensures !ClosesAt(s, k) {
      NotClosedAfter(s, b, k);
    }
    assert FenceLazy(s, b + 1).None?;
    assert FenceTry(s, o, |w| + 2) == FenceTry(s, o, |w| + 1) == FenceTry(s, o, |w|);
    ExactCloses(s, b, b);
  }

  /** No later place closes: it starts on a backtick of the fence at `e`, or
      its own backticks fall in the whitespace after it. */
  lemma NotClosedAfter(s: string, e: nat, k: nat)
    requires e < k && ClosesAt(s, e)
    ensures !ClosesAt(s, k)
  {
    if k + 4 <= |s| {
      if k <= e + 3 {
        assert s[k] == s[e..e + 4][k - e] == '`';
        assert s[k..k + 4][0] == s[k];
      } else {
        assert s[k + 1] == s[e + 4..][k + 1 - (e + 4)];
        assert IsSpace(s[k + 1]);
        assert s[k..k + 4][1] == s[k + 1];
      }
    }
  }

  /** A reply whose body holds a fenced block of its own keeps that block. */
  lemma StripFenceNested()
    ensures StripFence("```markdown\nT\n```p\nx\n```\nm\n```\n") == "T\n```p\nx\n```\nm"
  {
    assert "```markdown\nT\n```p\nx\n```\nm\n```\n"
           == FenceOpen + "" + "\n" + "T\n```p\nx\n```\nm" + FenceClose + "\n";
    StripFenceExact("", "T\n```p\nx\n```\nm", "\n");
  }

  /** Where the parts of the fenced form lie. */
  lemma ExactParts(w: string, body: string, t: string)
    ensures var s := FenceOpen + w + "\n" + body + FenceClose + t;
            var o := |FenceOpen|;
            var b := o + |w| + 1;
            var e := b + |body|;
            |s| == e + 4 + |t| && s[..o] == FenceOpen && s[o + |w|] == '\n'
            && (forall k :: 0 <= k < |w| ==> s[o + k] == w[k])
            && (forall k :: 0 <= k < |body| ==> s[b + k] == body[k])
            && s[b..e] == body && s[e..e + 4] == FenceClose && s[e + 4..] == t
  {
  }

  /** The lazy body ends exactly before the fence that closes at `e`. */
  lemma ExactCloses(s: string, b: nat, e: nat)
    requires b <= e && ClosesAt(s, e)
    ensures FenceLazy(s, b) == Some(e)
  {
    forall k | b <= k < e ensures !ClosesAt(s, k) {
      NotClosedBefore(s, e, k);
    }
    FenceLazyFirst(s, b, e);
  }

  /**
   * No earlier place closes: either the backtick at `e + 1` is left in the
   * tail, which then is not all whitespace, or the newline at `e` falls on a
   * backtick of the would-be fence.
   */
  lemma NotClosedBefore(s: string, e: nat, k: nat)
    requires k < e && e + 4 <= |s| && s[e..e + 4] == FenceClose
    ensures !ClosesAt(s, k)
  {
    if k + 4 <= e + 1 {
      assert s[e + 1] == s[e..e + 4][1] == '`';
      assert s[k + 4..][e + 1 - (k + 4)] == '`';
      assert !IsSpace('`');
    } else if k + 4 <= |s| {
      assert s[k..k + 4][e - k] == s[e] == '\n';
      assert FenceClose[e - k] == '`';
    }
  }

  /** The lazy scan stops at the first place the fence closes. */
  lemma {:induction false} FenceLazyFirst(s: string, from: nat, e: nat)
    requires from <= e && ClosesAt(s, e) && forall k :: from <= k < e ==> !ClosesAt(s, k)
    ensures FenceLazy(s, from) == Some(e)
    decreases e - from
  {
    if from < e {
      FenceLazyFirst(s, from + 1, e);
    }
  }

  // ---------------------------------------------------------------------
  // process_image
  // ---------------------------------------------------------------------

  /**
   * `process_image(image)`: without a client it fails before any request is
   * built; otherwise it sends the request, strips the code fence from the
   * reply and rewrites the LaTeX delimiters. `encode` stands for the PNG and
   * base64 encoder and `complete` for the chat-completion call, which may fail.
   */
  function Transcribe(client: Option<Client>, model: string, image: Image,
                      encode: Image -> string, complete: (Client, Request) -> Result<string>,
                      inlineWrapper: string, blockWrapper: string): (r: Result<string>)
    ensures client.None? ==> r == Failure(NoClientError)
    ensures client.Some? ==>
              var reply := complete(client.value, RequestFor(model, encode(image)));
              (r.Success? <==> reply.Success?)
              && (reply.Failure? ==> r.error == reply.error)
  {
    if client.None? then Failure(NoClientError)
    else
      var reply := complete(client.value, RequestFor(model, encode(image)));
      if reply.Failure? then Failure(reply.error)
      else Success(Markdown.Rewrite(StripFence(reply.value), inlineWrapper, blockWrapper))
  }

  /** A fenced reply is unwrapped before the delimiters are rewritten. */
  lemma TranscribeFenced(client: Client, model: string, image: Image,
                         encode: Image -> string, complete: (Client, Request) -> Result<string>,
                         inlineWrapper: string, blockWrapper: string,
                         w: string, body: string, t: string)
    requires AllSpace(w) && AllSpace(t) && (body == [] || !IsSpace(body[0]))
    requires complete(client, RequestFor(model, encode(image)))
             == Success(FenceOpen + w + "\n" + body + FenceClose + t)
    ensures Transcribe(Some(client), model, image, encode, complete, inlineWrapper, blockWrapper)
            == Success(Markdown.Rewrite(body, inlineWrapper, blockWrapper))
  {
    StripFenceExact(w, body, t);
  }

  /** A reply that does not open with the fence is rewritten as it stands. */
  lemma TranscribeUnfenced(client: Client, model: string, image: Image,
                           encode: Image -> string, complete: (Client, Request) -> Result<string>,
                           inlineWrapper: string, blockWrapper: string, reply: string)
    requires complete(client, RequestFor(model, encode(image))) == Success(reply)
    requires !StartsWith(reply, FenceOpen)
    ensures Transcribe(Some(client), model, image, encode, complete, inlineWrapper, blockWrapper)
            == Success(Markdown.Rewrite(reply, inlineWrapper, blockWrapper))
  {
  }
}
