/** The `POST /duo-tts` handler (`duo_tts`, app/main.py:42-75) as a decision
    procedure: from the configuration, the `X-API-Key` header, the JSON
    payload and the outcomes of the external services, it determines the
    response, the synthesis requests made, and the audio exported.

    The lemmas about the handler take the response as a parameter `resp`
    pinned by `requires resp == DuoTts(...)` rather than mentioning `DuoTts`
    in each `ensures`: the handler's definition is then unfolded once per
    lemma, which keeps verification cheap. */
module Handler {
  import opened Wrappers
  import opened Text
  import opened Script
  import opened Voices
  import opened Assembly

  const DefaultPublicBaseUrl: string := "http://localhost:8000"
  const DefaultPauseMs: int := 500
  const AuthFailedDetail: string := "Auth failed (X-API-Key incorrecta)"
  const MissingScriptDetail: string := "Falta 'script'"
  /** Every failure inside the synthesis block is reported with this prefix
      and the exception's message. */
  const TtsErrorPrefix: string := "TTS error: "

  /** The environment read at start-up: `ACTION_API_KEY` and
      `PUBLIC_BASE_URL`, each possibly unset. */
  datatype Config = Config(actionKey: Option<string>, publicBaseUrl: Option<string>)

  /** `PUBLIC_BASE_URL`, or its default when unset. */
  function BaseUrl(config: Config): (url: string)
    ensures config.publicBaseUrl.None? ==> url == DefaultPublicBaseUrl
    ensures config.publicBaseUrl.Some? ==> url == config.publicBaseUrl.value
  {
    config.publicBaseUrl.GetOr(DefaultPublicBaseUrl)
  }

  /** `ACTION_API_KEY` is truthy: set, and not the empty string. Only then
      is the header checked. */
  function AuthRequired(config: Config): (required: bool)
    ensures required <==> config.actionKey != None && config.actionKey != Some("")
  {
    config.actionKey.Some? && config.actionKey.value != []
  }

  /** The header check of `if ACTION_API_KEY and x_api_key != ACTION_API_KEY`
      passes when no usable key is configured, or when the header carries
      exactly the configured key; a missing header never matches a key. */
  function Authorized(config: Config, header: Option<string>): (passes: bool)
    ensures passes <==>
      config.actionKey == None || config.actionKey == Some("") || header == config.actionKey
  {
    !AuthRequired(config) || header == config.actionKey
  }

  /** `int(payload.get("pause_ms", 500))`: the field is absent, converts to
      an integer, or makes the conversion raise. */
  datatype PauseField = PauseAbsent | PauseGiven(ms: int) | PauseUnconvertible

  function PauseMs(field: PauseField): (r: Option<int>)
    ensures r.None? <==> field.PauseUnconvertible?
    ensures field.PauseAbsent? ==> r == Some(DefaultPauseMs)
    ensures field.PauseGiven? ==> r == Some(field.ms)
  {
    match field
    case PauseAbsent => Some(DefaultPauseMs)
    case PauseGiven(ms) => Some(ms)
    case PauseUnconvertible => None
  }

  /** The JSON body. `script` is `None` when absent or null. */
  datatype Payload = Payload(
    script: Option<string>,
    voiceA: Option<string>,
    voiceB: Option<string>,
    pause: PauseField)

  /** One text-to-speech request: the utterance and the voice. */
  datatype Utterance = Utterance(text: string, voice: string)

  /** The world outside the handler. `synthesize(k, u)` is the outcome of
      the synthesis request made at position `k` of the loop, followed by
      decoding of the returned file: its clip length in milliseconds, or the
      message of the exception raised. Each position is its own network
      request, so two identical utterances in one script can fare
      differently. `exportError` is the message of the exception the MP3
      export raises, if it does. `fileHex` is the random hex name of the
      output file. */
  datatype Services = Services(
    synthesize: (nat, Utterance) -> Result<nat, string>,
    exportError: Option<string>,
    fileHex: string)

  /** A JSON response with the URL, an `HTTPException`, or an exception that
      escapes the handler (the framework's generic server error). */
  datatype Outcome = Ok(audioUrl: string) | HttpError(status: int, detail: string) | Uncaught

  /** The audio handed to the exporter: its parts and the clip lengths. */
  datatype Audio = Audio(parts: seq<Part>, clipMs: seq<nat>)

  datatype Response = Response(outcome: Outcome, calls: seq<Utterance>, exported: Option<Audio>)

  /** The request for every turn, in turn order: the turn's utterance, in
      the voice of its speaker. */
  function Requests(turns: seq<Turn>, cast: Cast): (reqs: seq<Utterance>)
    ensures |reqs| == |turns|
    ensures forall k :: 0 <= k < |turns| ==> reqs[k].text == turns[k].text
    ensures forall k :: 0 <= k < |turns| && turns[k].speaker == A ==> reqs[k].voice == cast.voiceA
    ensures forall k :: 0 <= k < |turns| && turns[k].speaker == B ==> reqs[k].voice == cast.voiceB
    ensures forall k :: 0 <= k < |turns| && turns[k].speaker == C ==> reqs[k].voice == VoiceC
  {
    seq(|turns|, k requires 0 <= k < |turns| =>
      Utterance(turns[k].text, VoiceFor(cast, turns[k].speaker)))
  }

  /** The requests actually made, and the clip lengths or the first error. */
  datatype Synthesis = Synthesis(calls: seq<Utterance>, result: Result<seq<nat>, string>)

  /** The synthesis loop: request `k` is made only after requests
      `0..k-1` have succeeded, and the first failure ends the loop (its
      exception leaves the `for`). */
  function SynthesizeAll(reqs: seq<Utterance>, synth: (nat, Utterance) -> Result<nat, string>): (s: Synthesis)
    ensures |s.calls| <= |reqs| && s.calls == reqs[..|s.calls|]
    ensures forall k :: 0 <= k < |s.calls| - 1 ==> synth(k, s.calls[k]).Success?
    ensures s.result.Success? ==>
      && s.calls == reqs
      && |s.result.value| == |reqs|
      && forall k :: 0 <= k < |reqs| ==> synth(k, reqs[k]) == Success(s.result.value[k])
    ensures s.result.Failure? ==>
      s.calls != [] && synth(|s.calls| - 1, s.calls[|s.calls| - 1]) == Failure(s.result.error)
    decreases |reqs|
  {
    if reqs == [] then Synthesis([], Success([]))
    else
      var n := |reqs| - 1;
      var prev := SynthesizeAll(reqs[..n], synth);
      match prev.result
      case Failure(_) =>
        assert reqs[..n][..|prev.calls|] == reqs[..|prev.calls|];
        prev
      case Success(clips) =>
        assert forall k :: 0 <= k < n ==> reqs[..n][k] == reqs[k];
        match synth(n, reqs[n])
        case Failure(e) => Synthesis(reqs, Failure(e))
        case Success(ms) => Synthesis(reqs, Success(clips + [ms]))
  }

  /** `f"{PUBLIC_BASE_URL}/public/{out_name}"` with `out_name` the hex name
      plus `.mp3`: the base, then `/public/`, then the name, then `.mp3`. */
  function AudioUrl(config: Config, fileHex: string): (url: string)
    ensures |url| == |BaseUrl(config)| + 8 + |fileHex| + 4
    ensures url[..|BaseUrl(config)|] == BaseUrl(config)
    ensures url[|BaseUrl(config)|..|BaseUrl(config)| + 8] == "/public/"
    ensures url[|BaseUrl(config)| + 8..|url| - 4] == fileHex
    ensures url[|url| - 4..] == ".mp3"
  {
    var base := BaseUrl(config);
    var url := base + "/public/" + fileHex + ".mp3";
    assert url[..|base|] == base;
    assert url[|base|..|base| + 8] == "/public/";
    assert url[|base| + 8..|url| - 4] == fileHex;
    assert url[|url| - 4..] == ".mp3";
    url
  }

  /** The script after `(payload.get("script") or "").strip()`: an absent
      or null script reads as empty, and otherwise the script loses its outer
      whitespace and nothing else. */
  function StrippedScript(payload: Payload): (script: string)
    ensures IsStripped(script)
    ensures payload.script.None? ==> script == []
    ensures exists lead :: Surrounds(payload.script.GetOr(""), script, lead)
    ensures script == [] <==> AllSpace(payload.script.GetOr(""))
  {
    StripSurrounds(payload.script.GetOr(""));
    StripEmpty(payload.script.GetOr(""));
    Strip(payload.script.GetOr(""))
  }

  /** `duo_tts`. The steps run in source order: the header check, reading
      the fields (the pause conversion can raise here, outside the `try`),
      the empty-script check, then inside the `try` parsing, one synthesis
      per turn, assembly and export; any exception inside the `try` becomes
      a 500 with the message after `TTS error: `. */
  function DuoTts(config: Config, header: Option<string>, payload: Payload, services: Services): (resp: Response)
    ensures resp.outcome.HttpError? ==> resp.outcome.status in {400, 401, 500}
    ensures resp.outcome.HttpError? && resp.outcome.status == 500 ==>
      |resp.outcome.detail| >= |TtsErrorPrefix| && resp.outcome.detail[..|TtsErrorPrefix|] == TtsErrorPrefix
    ensures resp.calls != [] ==> Authorized(config, header) && StrippedScript(payload) != []
    ensures resp.outcome.Ok? ==> resp.exported.Some? && resp.calls != []
  {
    if !Authorized(config, header) then
      Response(HttpError(401, AuthFailedDetail), [], None)
    else
      var script := StrippedScript(payload);
      var cast := ResolveCast(payload.voiceA, payload.voiceB);
      match PauseMs(payload.pause)
      case None => Response(Uncaught, [], None)
      case Some(pause) =>
        if script == [] then
          Response(HttpError(400, MissingScriptDetail), [], None)
        else
          Attempt(config, script, cast, pause, services)
  }

  /** The `try` block of `duo_tts`: parsing, one synthesis per turn,
      assembly and export. It either answers with the URL, after exporting
      audio for at least one request, or fails with a 500 whose detail is
      `TTS error: ` and the message. */
  function Attempt(config: Config, script: string, cast: Cast, pause: int, services: Services): (resp: Response)
    ensures resp.outcome.Ok? || resp.outcome.HttpError?
    ensures resp.outcome.HttpError? ==>
      && resp.outcome.status == 500
      && |resp.outcome.detail| >= |TtsErrorPrefix|
      && resp.outcome.detail[..|TtsErrorPrefix|] == TtsErrorPrefix
    ensures resp.outcome.Ok? ==> resp.exported.Some? && resp.calls != []
  {
    match ParseScript(Some(script))
    case Failure(msg) => Response(TtsError(msg), [], None)
    case Success(turns) =>
      var syn := SynthesizeAll(Requests(turns, cast), services.synthesize);
      match syn.result
      case Failure(msg) => Response(TtsError(msg), syn.calls, None)
      case Success(clipMs) =>
        var audio := Audio(Layout(|turns|, pause), clipMs);
        match services.exportError
        case Some(msg) => Response(TtsError(msg), syn.calls, Some(audio))
        case None => Response(Ok(AudioUrl(config, services.fileHex)), syn.calls, Some(audio))
  }

  function TtsError(msg: string): (o: Outcome)
    ensures o.HttpError? && o.status == 500
    ensures |o.detail| >= |TtsErrorPrefix| && o.detail[..|TtsErrorPrefix|] == TtsErrorPrefix
    ensures o.detail[|TtsErrorPrefix|..] == msg
  {
    HttpError(500, TtsErrorPrefix + msg)
  }

  /** The first synthesis failure ends the loop: exactly the requests up to
      and including the failing one are made, and its message is reported. */
  lemma SynthesisStopsAtFirstFailure(
    reqs: seq<Utterance>, synth: (nat, Utterance) -> Result<nat, string>, k: nat)
    requires k < |reqs| && synth(k, reqs[k]).Failure?
    requires forall j :: 0 <= j < k ==> synth(j, reqs[j]).Success?
    ensures SynthesizeAll(reqs, synth).calls == reqs[..k + 1]
    ensures SynthesizeAll(reqs, synth).result == Failure(synth(k, reqs[k]).error)
  {
    var s := SynthesizeAll(reqs, synth);
    var last := |s.calls| - 1;
    assert s.calls[last] == reqs[last];
  }

  /** The loop completes exactly when every request succeeds, and then it
      has made every request once, in order. */
  lemma SynthesisSucceedsIff(reqs: seq<Utterance>, synth: (nat, Utterance) -> Result<nat, string>)
    ensures SynthesizeAll(reqs, synth).result.Success? <==>
      forall k :: 0 <= k < |reqs| ==> synth(k, reqs[k]).Success?
  {
    var s := SynthesizeAll(reqs, synth);
    if s.result.Failure? {
      var last := |s.calls| - 1;
      assert s.calls[last] == reqs[last];
    }
  }

  /** 401 is returned exactly when the header check fails, and then nothing
      else happens, whatever the payload. */
  lemma AuthIff(config: Config, header: Option<string>, payload: Payload, services: Services, resp: Response)
    requires resp == DuoTts(config, header, payload, services)
    ensures resp.outcome.HttpError? && resp.outcome.status == 401 <==> !Authorized(config, header)
    ensures !Authorized(config, header) ==>
      resp == Response(HttpError(401, AuthFailedDetail), [], None)
  {
  }

  /** Without a configured key, or with an empty one, no request is ever
      refused for its header. */
  lemma NoKeyNoAuth(config: Config, header: Option<string>, payload: Payload, services: Services, resp: Response)
    requires resp == DuoTts(config, header, payload, services)
    requires config.actionKey == None || config.actionKey == Some("")
    ensures !(resp.outcome.HttpError? &&
              resp.outcome.status == 401)
  {
  }

  /** The pause is converted before the script is checked: an unconvertible
      pause escapes as an uncaught error even when the script is missing,
      and it is the only cause of one. */
  lemma UncaughtIff(config: Config, header: Option<string>, payload: Payload, services: Services, resp: Response)
    requires resp == DuoTts(config, header, payload, services)
    ensures resp.outcome.Uncaught?
        <==> Authorized(config, header) && payload.pause.PauseUnconvertible?
    ensures resp.outcome.Uncaught? ==>
      resp.calls == []
  {
  }

  /** 400 is returned exactly when the request passes the header check, its
      pause converts, and its script is missing or all whitespace. */
  lemma MissingScriptIff(config: Config, header: Option<string>, payload: Payload, services: Services, resp: Response)
    requires resp == DuoTts(config, header, payload, services)
    ensures resp.outcome == HttpError(400, MissingScriptDetail)
        <==> && Authorized(config, header)
             && !payload.pause.PauseUnconvertible?
             && AllSpace(payload.script.GetOr(""))
  {
    StripEmpty(payload.script.GetOr(""));
    var r := resp;
    if r.outcome.HttpError? && r.outcome.status == 500 {
      assert r.outcome.detail[..|TtsErrorPrefix|] == TtsErrorPrefix;
      assert r.outcome.detail != MissingScriptDetail by {
        assert MissingScriptDetail[..|TtsErrorPrefix|] != TtsErrorPrefix by {
          assert MissingScriptDetail[0] != TtsErrorPrefix[0];
        }
      }
    }
  }

  /** A script with no line of the dialogue shape is reported as a server
      error carrying the parser's message, before any synthesis. */
  lemma ParseFailureIs500(config: Config, header: Option<string>, payload: Payload, services: Services, resp: Response)
    requires resp == DuoTts(config, header, payload, services)
    requires Authorized(config, header) && !payload.pause.PauseUnconvertible?
    requires StrippedScript(payload) != []
    requires ParseScript(Some(StrippedScript(payload))).Failure?
    ensures resp ==
      Response(HttpError(500, TtsErrorPrefix + NoDialogueMessage), [], None)
  {
  }

  /** The request succeeds exactly when it passes the header check, its
      pause converts, its script parses, every synthesis succeeds and the
      export does. */
  lemma SuccessIff(config: Config, header: Option<string>, payload: Payload, services: Services, resp: Response)
    requires resp == DuoTts(config, header, payload, services)
    ensures resp.outcome.Ok? <==>
      && Authorized(config, header)
      && !payload.pause.PauseUnconvertible?
      && StrippedScript(payload) != []
      && ParseScript(Some(StrippedScript(payload))).Success?
      && SynthesizeAll(
           Requests(ParseScript(Some(StrippedScript(payload))).value,
                    ResolveCast(payload.voiceA, payload.voiceB)),
           services.synthesize).result.Success?
      && services.exportError.None?
  {
  }

  /** Whitespace around the whole script changes nothing about the
      response. */
  lemma PaddedScriptSameResponse(
    config: Config, header: Option<string>, payload: Payload, services: Services,
    before: string, after: string)
    requires AllSpace(before) && AllSpace(after)
    ensures DuoTts(config, header, payload.(script := Some(before + payload.script.GetOr("") + after)), services)
         == DuoTts(config, header, payload.(script := Some(payload.script.GetOr(""))), services)
  {
    StripPadded(before, payload.script.GetOr(""), after);
  }

  /** When the header check passes, the pause converts, the script parses
      and every service succeeds, the response is the URL, every turn is
      synthesized once, in order and in its speaker's voice, and the audio
      has the assembly layout with one clip per turn. */
  lemma SuccessWhen(
    config: Config, header: Option<string>, payload: Payload, services: Services,
    turns: seq<Turn>, pause: int, resp: Response)
    requires Authorized(config, header)
    requires PauseMs(payload.pause) == Some(pause)
    requires ParseScript(Some(StrippedScript(payload))) == Success(turns)
    requires SynthesizeAll(Requests(turns, ResolveCast(payload.voiceA, payload.voiceB)), services.synthesize).result.Success?
    requires services.exportError == None
    requires resp == DuoTts(config, header, payload, services)
    ensures resp.outcome == Ok(AudioUrl(config, services.fileHex))
    ensures resp.calls == Requests(turns, ResolveCast(payload.voiceA, payload.voiceB))
    ensures resp.exported.Some? && resp.exported.value.parts == Layout(|turns|, pause)
    ensures |resp.exported.value.clipMs| == |turns|
    ensures forall k :: 0 <= k < |turns| ==>
      services.synthesize(k, Requests(turns, ResolveCast(payload.voiceA, payload.voiceB))[k])
        == Success(resp.exported.value.clipMs[k])
  {
    if StrippedScript(payload) == [] {
      EmptyScriptRejected(Some(StrippedScript(payload)));
    }
  }

  /** When the MP3 export raises after every clip was synthesised, the
      request ends with a server error carrying the exporter's message, all
      requests having been made and the laid-out audio handed over. */
  lemma ExportFailureResponse(
    config: Config, header: Option<string>, payload: Payload, services: Services,
    turns: seq<Turn>, pause: int, msg: string, resp: Response)
    requires Authorized(config, header)
    requires PauseMs(payload.pause) == Some(pause)
    requires ParseScript(Some(StrippedScript(payload))) == Success(turns)
    requires SynthesizeAll(Requests(turns, ResolveCast(payload.voiceA, payload.voiceB)), services.synthesize).result.Success?
    requires services.exportError == Some(msg)
    requires resp == DuoTts(config, header, payload, services)
    ensures resp.outcome == HttpError(500, TtsErrorPrefix + msg)
    ensures resp.calls == Requests(turns, ResolveCast(payload.voiceA, payload.voiceB))
    ensures resp.exported.Some? && resp.exported.value.parts == Layout(|turns|, pause)
    ensures |resp.exported.value.clipMs| == |turns|
    ensures forall k :: 0 <= k < |turns| ==>
      services.synthesize(k, Requests(turns, ResolveCast(payload.voiceA, payload.voiceB))[k])
        == Success(resp.exported.value.clipMs[k])
  {
    if StrippedScript(payload) == [] {
      EmptyScriptRejected(Some(StrippedScript(payload)));
    }
  }

  /** A synthesis failure ends the request with a server error carrying
      the provider's message; nothing is exported and no URL is returned. */
  lemma SynthesisFailureResponse(
    config: Config, header: Option<string>, payload: Payload, services: Services,
    turns: seq<Turn>, resp: Response)
    requires Authorized(config, header) && !payload.pause.PauseUnconvertible?
    requires ParseScript(Some(StrippedScript(payload))) == Success(turns)
    requires SynthesizeAll(Requests(turns, ResolveCast(payload.voiceA, payload.voiceB)), services.synthesize).result.Failure?
    requires resp == DuoTts(config, header, payload, services)
    ensures resp.outcome == HttpError(500, TtsErrorPrefix +
      SynthesizeAll(Requests(turns, ResolveCast(payload.voiceA, payload.voiceB)), services.synthesize).result.error)
    ensures resp.calls == SynthesizeAll(Requests(turns, ResolveCast(payload.voiceA, payload.voiceB)), services.synthesize).calls
    ensures resp.exported == None
  {
    if StrippedScript(payload) == [] {
      EmptyScriptRejected(Some(StrippedScript(payload)));
    }
  }

  /** A missing script is refused with 400 once the header check passes and
      the pause converts. */
  lemma MissingScriptRequest(config: Config, header: Option<string>, payload: Payload, services: Services, resp: Response)
    requires Authorized(config, header) && !payload.pause.PauseUnconvertible?
    requires payload.script == None
    requires resp == DuoTts(config, header, payload, services)
    ensures resp == Response(HttpError(400, MissingScriptDetail), [], None)
  {
    StripStripped("");
  }

  /** A script whose only line carries an unsupported tag reaches the parser
      and is refused with a server error carrying the parser's message. */
  lemma UnsupportedTagRequest(
    script: string, config: Config, header: Option<string>, payload: Payload, services: Services, resp: Response)
    requires script == "D: hi"
    requires Authorized(config, header) && !payload.pause.PauseUnconvertible?
    requires payload.script == Some(script)
    requires resp == DuoTts(config, header, payload, services)
    ensures resp == Response(HttpError(500, TtsErrorPrefix + NoDialogueMessage), [], None)
  {
    UnsupportedTagPayload(script, payload);
    ParseFailureIs500(config, header, payload, services, resp);
  }

  /** A payload carrying the script `D: hi` is left unchanged by stripping,
      so it passes the empty check, and the parser rejects it. */
  lemma UnsupportedTagPayload(script: string, payload: Payload)
    requires script == "D: hi"
    requires payload.script == Some(script)
    ensures StrippedScript(payload) == script
    ensures ParseScript(Some(StrippedScript(payload))) == Failure(NoDialogueMessage)
  {
    assert IsStripped(script);
    StripStripped(script);
    UnsupportedTagScript(script);
  }

  /** The requests for the two-line dialogue with the default cast. */
  lemma TwoLineRequests(turns: seq<Turn>)
    requires turns == [Turn(A, "Hello"), Turn(B, "Hi there")]
    ensures Requests(turns, ResolveCast(None, None)) ==
      [Utterance("Hello", "alloy"), Utterance("Hi there", "verse")]
  {
    var cast := ResolveCast(None, None);
    var reqs := Requests(turns, cast);
    assert reqs[0] == Utterance("Hello", VoiceFor(cast, A));
    assert reqs[1] == Utterance("Hi there", VoiceFor(cast, B));
  }

  /** A payload carrying the two-line dialogue `A: Hello` / `B: Hi there`
      is stripped to itself and parses to its two turns. */
  lemma TwoLinePayload(script: string, payload: Payload, turns: seq<Turn>)
    requires script == "A: Hello\nB: Hi there"
    requires payload.script == Some(script)
    requires turns == [Turn(A, "Hello"), Turn(B, "Hi there")]
    ensures StrippedScript(payload) == script
    ensures ParseScript(Some(StrippedScript(payload))) == Success(turns)
  {
    assert IsStripped(script);
    StripStripped(script);
    TwoLineScript(script, turns);
  }

  /** The two-line dialogue `A: Hello` / `B: Hi there`, with default voices
      and pause and every service succeeding: `Hello` is spoken by `alloy`,
      then `Hi there` by `verse`, and the URL uses the default base. */
  lemma TwoLineRequest(
    script: string, turns: seq<Turn>, config: Config, payload: Payload, header: Option<string>,
    services: Services, resp: Response)
    requires script == "A: Hello\nB: Hi there"
    requires payload.script == Some(script)
    requires turns == [Turn(A, "Hello"), Turn(B, "Hi there")]
    requires config == Config(None, None)
    requires payload.voiceA == None && payload.voiceB == None && payload.pause == PauseAbsent
    requires forall k, u :: services.synthesize(k, u).Success?
    requires services.exportError == None
    requires resp == DuoTts(config, header, payload, services)
    ensures resp.outcome == Ok(DefaultPublicBaseUrl + "/public/" + services.fileHex + ".mp3")
    ensures resp.calls == [Utterance("Hello", "alloy"), Utterance("Hi there", "verse")]
  {
    TwoLinePayload(script, payload, turns);
    TwoLineRequests(turns);
    SynthesisSucceedsIff(Requests(turns, ResolveCast(None, None)), services.synthesize);
    SuccessWhen(config, header, payload, services, turns, DefaultPauseMs, resp);
  }

  /** The same request exports 250 ms of silence, the first clip, a 500 ms
      pause and the second clip. */
  lemma TwoLineAudio(
    script: string, turns: seq<Turn>, config: Config, payload: Payload, header: Option<string>,
    services: Services, resp: Response)
    requires script == "A: Hello\nB: Hi there"
    requires payload.script == Some(script)
    requires turns == [Turn(A, "Hello"), Turn(B, "Hi there")]
    requires config == Config(None, None)
    requires payload.voiceA == None && payload.voiceB == None && payload.pause == PauseAbsent
    requires forall k, u :: services.synthesize(k, u).Success?
    requires services.exportError == None
    requires resp == DuoTts(config, header, payload, services)
    ensures resp.exported.Some?
    ensures resp.exported.value.parts == [Silence(250), Clip(0), Silence(500), Clip(1)]
  {
    TwoLinePayload(script, payload, turns);
    TwoLineRequests(turns);
    SynthesisSucceedsIff(Requests(turns, ResolveCast(None, None)), services.synthesize);
    SuccessWhen(config, header, payload, services, turns, DefaultPauseMs, resp);
    TwoClipLayout(|turns|, DefaultPauseMs);
  }

  /** In the same request the first clip is what the synthesis of `Hello`
      in `alloy` returned and the second that of `Hi there` in `verse`, and
      the exported audio lasts 250 ms, both clips and a 500 ms pause. */
  lemma TwoLineDuration(
    script: string, turns: seq<Turn>, config: Config, payload: Payload, header: Option<string>,
    services: Services, resp: Response)
    requires script == "A: Hello\nB: Hi there"
    requires payload.script == Some(script)
    requires turns == [Turn(A, "Hello"), Turn(B, "Hi there")]
    requires config == Config(None, None)
    requires payload.voiceA == None && payload.voiceB == None && payload.pause == PauseAbsent
    requires forall k, u :: services.synthesize(k, u).Success?
    requires services.exportError == None
    requires resp == DuoTts(config, header, payload, services)
    ensures resp.exported.Some? && |resp.exported.value.clipMs| == 2
    ensures services.synthesize(0, Utterance("Hello", "alloy")) == Success(resp.exported.value.clipMs[0])
    ensures services.synthesize(1, Utterance("Hi there", "verse")) == Success(resp.exported.value.clipMs[1])
    ensures ClipsWithin(resp.exported.value.parts, 2)
    ensures Duration(resp.exported.value.parts, resp.exported.value.clipMs) ==
      250 + resp.exported.value.clipMs[0] + resp.exported.value.clipMs[1] + 500
  {
    TwoLinePayload(script, payload, turns);
    TwoLineRequests(turns);
    SynthesisSucceedsIff(Requests(turns, ResolveCast(None, None)), services.synthesize);
    SuccessWhen(config, header, payload, services, turns, DefaultPauseMs, resp);
    TwoClipDuration(DefaultPauseMs, resp.exported.value.clipMs);
  }
}
