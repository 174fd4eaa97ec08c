/**
 * The settings and state of GPTOCRGUI.py: the `ImageToMarkdown` processor
 * (provider, client, model, running flag, the clipboard loop) and the parts
 * of `App` that hold the running state, the menu label and the per-provider
 * settings. Widget variables (`provider_var`, `api_key_var`, ...) are plain
 * string fields; log lines the application writes are collected in `logLines`.
 */
module GptOcrGui {
  import opened Common
  import opened Text
  import opened Transcription
  import opened CaptureLoop
  import Markdown

  const OpenAiProvider: string := "OPENAI"
  const VolcProvider: string := "火山引擎"
  const CustomProvider: string := "自定义"
  const VolcBaseUrl: string := "https://ark.cn-beijing.volces.com/api/v3"
  const DefaultModel: string := "gpt-4o"
  const EmptyUrlError: string := "自定义URL不能为空"
  const ClientErrorLog: string := "设置客户端时出错: "
  const SaveErrorLog: string := "保存设置失败: "
  const StopLabel: string := "停止"
  const StartLabel: string := "启动"
  const StartedLog: string := "已开始处理"
  const StoppedLog: string := "已停止处理"

  /** The three providers of `PROVIDER_MAPPING`; display and internal names agree. */
  predicate KnownProvider(p: string) {
    p == OpenAiProvider || p == VolcProvider || p == CustomProvider
  }

  /** `if proxy:` — a proxy is attached exactly when the string is not empty. */
  function ProxyOf(proxy: string): (r: Option<string>)
    ensures r.Some? <==> proxy != []
    ensures r.Some? ==> r.value == proxy
  {
    if proxy != [] then Some(proxy) else None
  }

  /**
   * The branch logic of `set_proxy`: which client the provider asks for.
   * `Success(None)` is an unknown provider, for which nothing is built;
   * the custom provider needs a URL that is not blank.
   */
  function ClientFor(provider: string, proxy: string, customUrl: string): (r: Result<Option<Client>>)
    ensures r.Failure? <==> provider == CustomProvider && Strip(customUrl) == []
    ensures r.Failure? ==> r.error == EmptyUrlError
    ensures r.Success? ==> (r.value.None? <==> !KnownProvider(provider))
    ensures r.Success? && r.value.Some? ==>
              r.value.value.proxy == ProxyOf(proxy)
              && r.value.value.baseUrl
                 == if provider == OpenAiProvider then None
                    else if provider == VolcProvider then Some(VolcBaseUrl)
                    else Some(Strip(customUrl))
  {
    if provider == OpenAiProvider then Success(Some(Client(None, ProxyOf(proxy))))
    else if provider == VolcProvider then Success(Some(Client(Some(VolcBaseUrl), ProxyOf(proxy))))
    else if provider == CustomProvider then
      var url := Strip(customUrl);
      if url == [] then Failure(EmptyUrlError)
      else Success(Some(Client(Some(url), ProxyOf(proxy))))
    else Success(None)
  }

  /** The client after `set_proxy` asked for `want`: the new one when it was
      asked for and built, the previous one otherwise. */
  function NewClient(previous: Option<Client>, want: Result<Option<Client>>,
                     connect: Client -> Option<string>): (r: Option<Client>)
    ensures r != previous ==> want.Success? && r == want.value && r.Some? && connect(r.value).None?
    ensures want.Success? && want.value.Some? && connect(want.value.value).None? ==> r == want.value
  {
    if want.Success? && want.value.Some? && connect(want.value.value).None? then want.value else previous
  }

  /** What `set_proxy` logs: one line for an error, nothing otherwise. */
  function ClientLog(want: Result<Option<Client>>, connect: Client -> Option<string>): (r: seq<string>)
    ensures |r| <= 1
    ensures want.Failure? ==> r == [ClientErrorLog + want.error]
    ensures want.Success? && want.value.Some? && connect(want.value.value).Some? ==>
              r == [ClientErrorLog + connect(want.value.value).value]
    ensures r == [] <==> want.Success? && (want.value.Some? ==> connect(want.value.value).None?)
  {
    if want.Failure? then [ClientErrorLog + want.error]
    else if want.value.Some? && connect(want.value.value).Some? then
      [ClientErrorLog + connect(want.value.value).value]
    else []
  }

  /**
   * `ImageToMarkdown`. The image encoder is a function passed to the members
   * that use it; `log_callback` is replaced by the log lines a method returns.
   */
  class ImageToMarkdown {
    var running: bool
    var client: Option<Client>
    var gptModel: string
    var currentProvider: string
    const markdownProcessor: Markdown.MarkdownProcessor

    constructor ()
      ensures !running && client == None && gptModel == DefaultModel && currentProvider == OpenAiProvider
      ensures fresh(markdownProcessor)
      ensures markdownProcessor.inlineWrapper == Markdown.DefaultInlineWrapper
      ensures markdownProcessor.blockWrapper == Markdown.DefaultBlockWrapper
    {
      running := false;
      client := None;
      gptModel := DefaultModel;
      markdownProcessor := new Markdown.MarkdownProcessor();
      currentProvider := OpenAiProvider;
    }

    method SetProvider(provider: string)
      modifies this`currentProvider
      ensures currentProvider == provider
    {
      currentProvider := provider;
    }

    /**
     * `set_proxy(proxy)`, with `customUrl` the text of the URL field and
     * `connect` the error `OpenAI(...)` raises for a client, if any. A client
     * is stored only when one is asked for and built; every error leaves the
     * previous client in place and is logged.
     */
    method SetProxy(proxy: string, customUrl: string, connect: Client -> Option<string>)
      returns (log: seq<string>)
      modifies this`client
      ensures var want := ClientFor(currentProvider, proxy, customUrl);
              client == NewClient(old(client), want, connect) && log == ClientLog(want, connect)
    {
      var want := ClientFor(currentProvider, proxy, customUrl);
      log := [];
      if want.Failure? {
        log := [ClientErrorLog + want.error];
      } else if want.value.Some? {
        var err := connect(want.value.value);
        if err.Some? {
          log := [ClientErrorLog + err.value];
        } else {
          client := want.value;
        }
      }
    }

    /** Any model name is stored as given. */
    method SetGptModel(modelName: string)
      modifies this`gptModel
      ensures gptModel == modelName
    {
      gptModel := modelName;
    }

    /** Forwards to the markdown processor. */
    method SetWrappers(inlineWrapper: string, blockWrapper: string)
      modifies markdownProcessor
      ensures markdownProcessor.inlineWrapper == inlineWrapper
      ensures markdownProcessor.blockWrapper == blockWrapper
    {
      markdownProcessor.SetWrappers(inlineWrapper, blockWrapper);
    }

    /** `process_image` with the processor's client, model and wrappers. */
    function Transcriber(encode: Image -> string, complete: (Client, Request) -> Result<string>)
      : Image -> Result<string>
      reads this, markdownProcessor
    {
      var c, m := client, gptModel;
      var iw, bw := markdownProcessor.inlineWrapper, markdownProcessor.blockWrapper;
      (image: Image) => Transcribe(c, m, image, encode, complete, iw, bw)
    }

    /** `start` sets the flag; the thread it spawns runs `ProcessClipboardImage`. */
    method Start()
      modifies this`running
      ensures running
    {
      running := true;
    }

    method Stop()
      modifies this`running
      ensures !running
    {
      running := false;
    }

    /**
     * `process_clipboard_image` over the reads `clips`: it runs while `running`
     * is set and reads are left, and behaves as `Run` says. `copy` gives the
     * error writing the clipboard raises, if any. It returns what it did and
     * how many reads it consumed.
     */
    method ProcessClipboardImage(clips: seq<Clip>, encode: Image -> string,
                                 complete: (Client, Request) -> Result<string>,
                                 copy: string -> Option<string>)
      returns (events: seq<Event>, consumed: nat)
      modifies this`running
      ensures old(running) ==>
                var o := Run(None, clips, old(Transcriber(encode, complete)), copy);
                events == o.events && consumed == o.consumed && running == o.running
      ensures !old(running) ==> events == [] && consumed == 0 && !running
    {
      events, consumed := [], 0;
      if !running {
        return;
      }
      var transcribe := Transcriber(encode, complete);
      ghost var whole := Run(None, clips, transcribe, copy);
      var last: Option<Image> := None;
      assert clips[0..] == clips;
      while running && consumed < |clips|
        invariant consumed <= |clips|
        invariant running ==>
                    var o := Run(last, clips[consumed..], transcribe, copy);
                    whole == Outcome(events + o.events, o.last, o.running, consumed + o.consumed)
        invariant !running ==> whole == Outcome(events, whole.last, false, consumed)
        decreases |clips| - consumed, running
      {
        var st := Step(last, clips[consumed], transcribe, copy);
        RunAdvance(whole, events, last, clips, consumed, transcribe, copy);
        events := events + st.events;
        consumed := consumed + 1;
        if st.failed {
          running := false;
        } else {
          last := st.last;
        }
      }
      if running {
        assert clips[consumed..] == [];
      }
    }
  }

  /** `settings.get(key, default)` on one provider's settings. */
  function Get(settings: map<string, string>, key: string, default: string): string
  {
    if key in settings then settings[key] else default
  }

  /** The entry `save_settings` writes for a provider: every field stripped,
      and a `'url'` only for the custom provider. */
  function SettingsEntry(provider: string, apiKey: string, proxy: string, model: string, url: string)
    : (r: map<string, string>)
    ensures r.Keys == if provider == CustomProvider then {"url", "api_key", "proxy", "model"}
                      else {"api_key", "proxy", "model"}
    ensures r["api_key"] == Strip(apiKey) && r["proxy"] == Strip(proxy) && r["model"] == Strip(model)
    ensures provider == CustomProvider ==> r["url"] == Strip(url)
  {
    var common := map["api_key" := Strip(apiKey), "proxy" := Strip(proxy), "model" := Strip(model)];
    if provider == CustomProvider then common["url" := Strip(url)] else common
  }

  /** The model `update_client_settings` chooses, or `None` when it sets none. */
  function ModelFor(provider: string, settings: map<string, string>): (r: Option<string>)
    ensures r.Some? <==> KnownProvider(provider)
    ensures provider == OpenAiProvider && "model" !in settings ==> r == Some(DefaultModel)
    ensures (provider == VolcProvider || provider == CustomProvider) && "model" !in settings ==> r == Some("")
    ensures KnownProvider(provider) && "model" in settings ==> r == Some(settings["model"])
  {
    if provider == OpenAiProvider then Some(Get(settings, "model", DefaultModel))
    else if provider == VolcProvider || provider == CustomProvider then Some(Get(settings, "model", ""))
    else None
  }

  /** The settings of each provider as the application starts with them. */
  function DefaultProviderSettings(): map<string, map<string, string>> {
    map[OpenAiProvider := map["api_key" := "", "proxy" := "", "model" := DefaultModel],
        VolcProvider := map["api_key" := "", "proxy" := "", "model" := ""],
        CustomProvider := map["url" := "", "api_key" := "", "proxy" := "", "model" := ""]]
  }

  /** The parts of `App` that hold settings and the running state. */
  class App {
    const processor: ImageToMarkdown
    var runningState: bool
    /** Which of the icon images the tray shows; `create_tray_icon` starts it on the grey one. */
    var icon: Option<string>
    var logLines: seq<string>
    var providerVar: string
    var apiKeyVar: string
    var proxyVar: string
    var modelVar: string
    var urlVar: string
    var providerSettings: map<string, map<string, string>>

    constructor (processor: ImageToMarkdown)
      ensures this.processor == processor && !runningState && icon == Some("processing") && logLines == []
      ensures providerVar == OpenAiProvider && apiKeyVar == "" && proxyVar == ""
      ensures modelVar == DefaultModel && urlVar == ""
      ensures providerSettings == DefaultProviderSettings()
    {
      this.processor := processor;
      runningState := false;
      icon := Some("processing");
      logLines := [];
      providerVar := OpenAiProvider;
      apiKeyVar := "";
      proxyVar := "";
      modelVar := DefaultModel;
      urlVar := "";
      providerSettings := DefaultProviderSettings();
    }

    /** The label of the first menu item of `create_menu`. */
    function MenuLabel(): (r: string)
      reads this
      ensures r == StopLabel <==> runningState
      ensures r == StopLabel || r == StartLabel
    {
      if runningState then StopLabel else StartLabel
    }

    method StartProcessing()
      modifies this`runningState, this`icon, this`logLines, processor`running
      ensures processor.running && runningState && icon == Some("success")
      ensures logLines == old(logLines) + [StartedLog]
    {
      processor.Start();
      icon := Some("success");
      runningState := true;
      logLines := logLines + [StartedLog];
    }

    method StopProcessing()
      modifies this`runningState, this`icon, this`logLines, processor`running
      ensures !processor.running && !runningState && icon == Some("processing")
      ensures logLines == old(logLines) + [StoppedLog]
    {
      processor.Stop();
      icon := Some("processing");
      runningState := false;
      logLines := logLines + [StoppedLog];
    }

    /** `toggle_processing`: flips the running state; the menu then offers the opposite action. */
    method ToggleProcessing()
      modifies this`runningState, this`icon, this`logLines, processor`running
      ensures runningState == !old(runningState) && processor.running == runningState
      ensures MenuLabel() == if old(runningState) then StartLabel else StopLabel
      ensures icon == Some(if runningState then "success" else "processing")
      ensures logLines == old(logLines) + [if runningState then StartedLog else StoppedLog]
    {
      if runningState {
        StopProcessing();
      } else {
        StartProcessing();
      }
    }

    /** One provider's settings, or none: `provider_settings.get(provider, {})`. */
    function SettingsOf(provider: string): map<string, string>
      reads this
    {
      if provider in providerSettings then providerSettings[provider] else map[]
    }

    /**
     * `update_client_settings`: the proxy of the selected provider's settings
     * goes to `set_proxy` (which branches on the processor's own provider), and
     * the model is set for the three known providers.
     */
    method UpdateClientSettings(connect: Client -> Option<string>)
      modifies processor`client, processor`gptModel, this`logLines
      ensures var want := ClientFor(processor.currentProvider, Get(SettingsOf(providerVar), "proxy", ""), urlVar);
              processor.client == NewClient(old(processor.client), want, connect)
              && logLines == old(logLines) + ClientLog(want, connect)
      ensures var m := ModelFor(providerVar, SettingsOf(providerVar));
              processor.gptModel == if m.Some? then m.value else old(processor.gptModel)
    {
      var settings := SettingsOf(providerVar);
      var log := processor.SetProxy(Get(settings, "proxy", ""), urlVar, connect);
      logLines := logLines + log;
      var m := ModelFor(providerVar, settings);
      if m.Some? {
        processor.SetGptModel(m.value);
      }
    }

    /**
     * `save_settings`. An unknown provider name fails the lookup in
     * `PROVIDER_REVERSE_MAPPING` and nothing changes (`failed` is set).
     * Otherwise the provider's entry is replaced, and only it; then the
     * configuration is written (`saveError` is the error that write raises,
     * if any) and, when that succeeded, the client settings are updated.
     */
    method SaveSettings(saveError: Option<string>, connect: Client -> Option<string>)
      returns (failed: bool)
      modifies this`providerSettings, this`logLines, processor`client, processor`gptModel
      ensures failed <==> !KnownProvider(providerVar)
      ensures failed ==> providerSettings == old(providerSettings) && logLines == old(logLines)
                         && processor.client == old(processor.client)
                         && processor.gptModel == old(processor.gptModel)
      ensures !failed ==>
                providerSettings
                == old(providerSettings)[providerVar := SettingsEntry(providerVar, apiKeyVar, proxyVar, modelVar, urlVar)]
      ensures forall p :: p != providerVar ==>
                (p in providerSettings <==> p in old(providerSettings))
                && (p in providerSettings ==> providerSettings[p] == old(providerSettings)[p])
      ensures !failed && saveError.Some? ==>
                logLines == old(logLines) + [SaveErrorLog + saveError.value]
                && processor.client == old(processor.client)
                && processor.gptModel == old(processor.gptModel)
      ensures !failed && saveError.None? ==>
                var want := ClientFor(processor.currentProvider, Strip(proxyVar), urlVar);
                processor.gptModel == Strip(modelVar)
                && processor.client == NewClient(old(processor.client), want, connect)
                && logLines == old(logLines) + ClientLog(want, connect)
    {
      if !KnownProvider(providerVar) {
        return true;
      }
      failed := false;
      providerSettings := providerSettings[providerVar := SettingsEntry(providerVar, apiKeyVar, proxyVar, modelVar, urlVar)];
      if saveError.Some? {
        logLines := logLines + [SaveErrorLog + saveError.value];
      } else {
        UpdateClientSettings(connect);
      }
    }
  }
}
