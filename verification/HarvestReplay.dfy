/** The harvesting backend, which logs every live response, and the replay
    backend, which answers from such a log. */
module HarvestReplay {
  import opened Results
  import opened Text

  // ----- the log -----

  /** One line of the replay file, as far as it can be read. */
  datatype Line =
    | Blank
    | NotJson
    | NotObject
    | Entry(schema: string, backend: string, model: string, prompt: Option<string>, response: Option<string>,
            promptSha: Option<string>, responseSha: Option<string>)

  /** The hash of a text, and the digest the prompt cache files are named by. */
  datatype Oracles = Oracles(sha: string -> string, digest: string -> string)

  const ROW_SCHEMA := "orch_llm_replay_row_v1"

  datatype Key = Key(provider: string, model: string, promptSha: string)

  type Entries = map<Key, string>

  /** A row of this provider and model; all others are skipped. */
  predicate IsOwn(provider: string, model: string, line: Line) {
    line.Entry? && Strip(line.schema) == ROW_SCHEMA && Strip(line.backend) == provider && Strip(line.model) == model
  }

  /** The entries after one more line. */
  function ReadLine(o: Oracles, provider: string, model: string, entries: Entries, line: Line): Result<Entries> {
    if line.Blank? then Ok(entries)
    else if line.NotJson? then Fail("invalid JSON")
    else if line.NotObject? then Fail("replay line must be a JSON object")
    else if !IsOwn(provider, model, line) then Ok(entries)
    else if line.prompt.None? || line.response.None? then Fail("replay rows must include prompt and response")
    else if line.promptSha.None? || line.responseSha.None? then Fail("replay rows must include prompt_sha256 and response_sha256")
    else if line.promptSha.value != o.sha(line.prompt.value) then Fail("replay row prompt_sha256 mismatch")
    else if line.responseSha.value != o.sha(line.response.value) then Fail("replay row response_sha256 mismatch")
    else Ok(entries[Key(provider, model, line.promptSha.value) := line.response.value])
  }

  function ReadLines(o: Oracles, provider: string, model: string, lines: seq<Line>): Result<Entries> {
    if |lines| == 0 then Ok(map[]) else
    var entries :- ReadLines(o, provider, model, lines[..|lines| - 1]);
    ReadLine(o, provider, model, entries, lines[|lines| - 1])
  }

  /** `_load_replay_entries`; an absent log is None. */
  function LoadEntries(o: Oracles, provider: string, model: string, log: Option<seq<Line>>): Result<Entries> {
    if log.None? then Fail("replay file not found") else
    var entries :- ReadLines(o, provider, model, log.value);
    if entries == map[] then Fail("replay file contains no matching provider/model entries") else Ok(entries)
  }

  lemma {:induction false} ReadFailsEarly(o: Oracles, provider: string, model: string, lines: seq<Line>, n: nat)
    requires n <= |lines| && ReadLines(o, provider, model, lines[..n]).Fail?
    ensures ReadLines(o, provider, model, lines) == ReadLines(o, provider, model, lines[..n])
    decreases |lines|
  {
    if n == |lines| {
      assert lines[..n] == lines;
    } else {
      assert lines[..|lines| - 1][..n] == lines[..n];
      ReadFailsEarly(o, provider, model, lines[..|lines| - 1], n);
    }
  }

  method LoadReplayEntries(o: Oracles, provider: string, model: string, log: Option<seq<Line>>) returns (r: Result<Entries>)
    ensures r == LoadEntries(o, provider, model, log)
  {
    hide ReadLine;
    if log.None? {
      return Fail("replay file not found");
    }
    var lines := log.value;
    var entries: Entries := map[];
    for i := 0 to |lines|
      invariant ReadLines(o, provider, model, lines[..i]) == Ok(entries)
    {
      assert lines[..i + 1][..i] == lines[..i];
      var next := ReadLine(o, provider, model, entries, lines[i]);
      if next.Fail? {
        ReadFailsEarly(o, provider, model, lines, i + 1);
        return Fail(next.reason);
      }
      entries := next.value;
    }
    assert lines[..|lines|] == lines;
    if entries == map[] {
      return Fail("replay file contains no matching provider/model entries");
    }
    r := Ok(entries);
  }

  // ----- what a loaded log is -----

  /** The line is a replay row that names this provider and this model. */
  predicate Names(provider: string, model: string, line: Line) {
    && line.Entry?
    && Strip(line.schema) == "orch_llm_replay_row_v1"
    && Strip(line.backend) == provider
    && Strip(line.model) == model
  }

  /** The row has a prompt and a response, and the hashes of both. */
  predicate WellFormed(o: Oracles, line: Line)
    requires line.Entry?
  {
    && line.prompt.Some? && line.response.Some?
    && line.promptSha == Some(o.sha(line.prompt.value))
    && line.responseSha == Some(o.sha(line.response.value))
  }

  /** The line can be read: it is blank, or a JSON object that is well formed if it
      names this provider and model. */
  predicate CanRead(o: Oracles, provider: string, model: string, line: Line) {
    line.Blank? || (line.Entry? && (Names(provider, model, line) ==> WellFormed(o, line)))
  }

  /** Line `i` is the last one that names this provider and model and has this prompt. */
  ghost predicate LastRow(provider: string, model: string, lines: seq<Line>, prompt: string, i: nat) {
    && i < |lines|
    && Names(provider, model, lines[i]) && lines[i].prompt == Some(prompt)
    && forall j :: i < j < |lines| && Names(provider, model, lines[j]) ==> lines[j].prompt != Some(prompt)
  }

  lemma ReadLineMeaning(o: Oracles, provider: string, model: string, entries: Entries, line: Line)
    ensures var r := ReadLine(o, provider, model, entries, line);
      && (r.Ok? <==> CanRead(o, provider, model, line))
      && (r.Ok? && Names(provider, model, line) ==>
            r.value == entries[Key(provider, model, o.sha(line.prompt.value)) := line.response.value])
      && (r.Ok? && !Names(provider, model, line) ==> r.value == entries)
  {
    hide Strip;
  }

  lemma {:induction false} ReadsIff(o: Oracles, provider: string, model: string, lines: seq<Line>)
    ensures ReadLines(o, provider, model, lines).Ok? <==> forall i :: 0 <= i < |lines| ==> CanRead(o, provider, model, lines[i])
    ensures ReadLines(o, provider, model, lines).Ok? ==>
      (ReadLines(o, provider, model, lines).value != map[] <==> exists i :: 0 <= i < |lines| && Names(provider, model, lines[i]))
  {
    hide ReadLine, CanRead, Names;
    if |lines| != 0 {
      var n := |lines| - 1;
      ReadsIff(o, provider, model, lines[..n]);
      if ReadLines(o, provider, model, lines[..n]).Ok? {
        ReadLineMeaning(o, provider, model, ReadLines(o, provider, model, lines[..n]).value, lines[n]);
        if ReadLines(o, provider, model, lines).Ok? && Names(provider, model, lines[n]) {
          NamedIsEntry(o, provider, model, lines[n]);
          assert Key(provider, model, o.sha(lines[n].prompt.value)) in ReadLines(o, provider, model, lines).value;
        }
      }
    }
  }

  lemma NamedIsEntry(o: Oracles, provider: string, model: string, line: Line)
    requires Names(provider, model, line) && CanRead(o, provider, model, line)
    ensures line.Entry? && line.prompt.Some? && line.response.Some?
  {
  }

  /** Loading succeeds exactly when the log is there, every line can be read, and
      some line names this provider and model. */
  lemma LoadSucceedsIff(o: Oracles, provider: string, model: string, log: Option<seq<Line>>)
    ensures LoadEntries(o, provider, model, log).Ok? <==>
      && log.Some?
      && (forall i :: 0 <= i < |log.value| ==> CanRead(o, provider, model, log.value[i]))
      && exists i :: 0 <= i < |log.value| && Names(provider, model, log.value[i])
  {
    hide CanRead, Names, ReadLine;
    if log.Some? {
      ReadsIff(o, provider, model, log.value);
    }
  }

  /** A log that reads holds a response for a prompt exactly when the last row that
      names provider and model and has the prompt has that response; and every key
      names provider, model and the hash of a prompt. */
  lemma {:induction false} ReadMeaning(o: Oracles, provider: string, model: string, lines: seq<Line>, prompt: string, response: string)
    requires Injective(o.sha) && ReadLines(o, provider, model, lines).Ok?
    ensures var m, k := ReadLines(o, provider, model, lines).value, Key(provider, model, o.sha(prompt));
      k in m && m[k] == response <==>
        exists i: nat :: LastRow(provider, model, lines, prompt, i) && lines[i].response == Some(response)
  {
    hide ReadLine, CanRead, Names;
    if |lines| != 0 {
      var n := |lines| - 1;
      ReadMeaning(o, provider, model, lines[..n], prompt, response);
      ReadLineMeaning(o, provider, model, ReadLines(o, provider, model, lines[..n]).value, lines[n]);
      LastRowOfMore(provider, model, lines, prompt);
      if Names(provider, model, lines[n]) {
        NamedIsEntry(o, provider, model, lines[n]);
      }
    }
  }

  lemma LastRowOfMore(provider: string, model: string, lines: seq<Line>, prompt: string)
    requires |lines| != 0
    ensures var n := |lines| - 1;
      && (Names(provider, model, lines[n]) && lines[n].prompt == Some(prompt) ==>
            forall i: nat :: LastRow(provider, model, lines, prompt, i) <==> i == n)
      && (!(Names(provider, model, lines[n]) && lines[n].prompt == Some(prompt)) ==>
            forall i: nat :: LastRow(provider, model, lines, prompt, i) <==> LastRow(provider, model, lines[..n], prompt, i))
  {
    hide Strip;
    var n := |lines| - 1;
    if Names(provider, model, lines[n]) && lines[n].prompt == Some(prompt) {
      forall i: nat | i < n ensures !LastRow(provider, model, lines, prompt, i) {
      }
    }
  }

  /** What a loaded log holds, read off its lines. */
  lemma LoadedMeaning(o: Oracles, provider: string, model: string, log: Option<seq<Line>>, prompt: string, response: string)
    requires Injective(o.sha) && LoadEntries(o, provider, model, log).Ok?
    ensures var m, k := LoadEntries(o, provider, model, log).value, Key(provider, model, o.sha(prompt));
      k in m && m[k] == response <==>
        exists i: nat :: LastRow(provider, model, log.value, prompt, i) && log.value[i].response == Some(response)
  {
    ReadMeaning(o, provider, model, log.value, prompt, response);
  }

  // ----- the harvesting backend -----

  /** What a harvesting backend changes: its optional cache, its log, its count
      of live calls. */
  datatype Harvest = Harvest(cache: Option<map<string, string>>, log: Option<seq<Line>>, calls: nat)

  /** The row of a live response. */
  function RowOf(o: Oracles, provider: string, model: string, prompt: string, response: string): Line {
    Entry(ROW_SCHEMA, provider, model, Some(prompt), Some(response), Some(o.sha(prompt)), Some(o.sha(response)))
  }

  function Append(log: Option<seq<Line>>, line: Line): seq<Line> {
    (if log.Some? then log.value else []) + [line]
  }

  predicate Cached(o: Oracles, h: Harvest, prompt: string) {
    h.cache.Some? && o.digest(prompt) in h.cache.value
  }

  /** One call: the answer and what the backend has become. `live` is what the
      provider would answer; `liveOk` whether live calls are permitted. */
  function HarvestCall(o: Oracles, provider: string, model: string, h: Harvest, prompt: string, liveOk: bool, live: Result<string>)
    : (Result<string>, Harvest)
  {
    if Cached(o, h, prompt) then (Ok(h.cache.value[o.digest(prompt)]), h)
    else if !liveOk then (Fail("ORCH_LLM_LIVE_OK=1 is required for harvest backends"), h)
    else if live.Fail? then (live, h)
    else (live, Harvest(
      if h.cache.None? then None else Some(h.cache.value[o.digest(prompt) := live.value]),
      Some(Append(h.log, RowOf(o, provider, model, prompt, live.value))),
      h.calls + 1))
  }

  class ProviderHarvestBackend {
    const o: Oracles
    const provider: string
    const model: string
    var cache: Option<map<string, string>>
    var log: Option<seq<Line>>
    var calls: nat

    constructor (o: Oracles, provider: string, model: string, cache: Option<map<string, string>>, log: Option<seq<Line>>)
      ensures this.o == o && this.provider == provider && this.model == model
      ensures Contents() == Harvest(cache, log, 0)
    {
      this.o, this.provider, this.model, this.cache, this.log, this.calls := o, provider, model, cache, log, 0;
    }

    ghost function Contents(): Harvest
      reads this
    {
      Harvest(cache, log, calls)
    }

    method Generate(prompt: string, liveOk: bool, live: Result<string>) returns (r: Result<string>)
      modifies this
      ensures (r, Contents()) == HarvestCall(o, provider, model, old(Contents()), prompt, liveOk, live)
    {
      if cache.Some? && o.digest(prompt) in cache.value {
        return Ok(cache.value[o.digest(prompt)]);
      }
      if !liveOk {
        return Fail("ORCH_LLM_LIVE_OK=1 is required for harvest backends");
      }
      if live.Fail? {
        return live;
      }
      calls := calls + 1;
      log := Some(Append(log, RowOf(o, provider, model, prompt, live.value)));
      if cache.Some? {
        cache := Some(cache.value[o.digest(prompt) := live.value]);
      }
      r := live;
    }
  }

  // ----- the replay backend -----

  datatype Replay = Replay(cache: Option<map<string, string>>, calls: nat)

  function ReplayCall(o: Oracles, provider: string, model: string, entries: Entries, p: Replay, prompt: string)
    : (Result<string>, Replay)
  {
    if p.cache.Some? && o.digest(prompt) in p.cache.value then (Ok(p.cache.value[o.digest(prompt)]), p)
    else if Key(provider, model, o.sha(prompt)) !in entries then (Fail("replay backend missing prompt"), p)
    else
      var response := entries[Key(provider, model, o.sha(prompt))];
      (Ok(response), Replay(if p.cache.None? then None else Some(p.cache.value[o.digest(prompt) := response]), p.calls + 1))
  }

  class ProviderReplayBackend {
    const o: Oracles
    const provider: string
    const model: string
    const entries: Entries
    var cache: Option<map<string, string>>
    var calls: nat

    constructor (o: Oracles, provider: string, model: string, entries: Entries, cache: Option<map<string, string>>)
      ensures this.o == o && this.provider == provider && this.model == model && this.entries == entries
      ensures Contents() == Replay(cache, 0)
    {
      this.o, this.provider, this.model, this.entries, this.cache, this.calls := o, provider, model, entries, cache, 0;
    }

    ghost function Contents(): Replay
      reads this
    {
      Replay(cache, calls)
    }

    method Generate(prompt: string) returns (r: Result<string>)
      modifies this
      ensures (r, Contents()) == ReplayCall(o, provider, model, entries, old(Contents()), prompt)
    {
      if cache.Some? && o.digest(prompt) in cache.value {
        return Ok(cache.value[o.digest(prompt)]);
      }
      var key := Key(provider, model, o.sha(prompt));
      if key !in entries {
        return Fail("replay backend missing prompt");
      }
      calls := calls + 1;
      if cache.Some? {
        cache := Some(cache.value[o.digest(prompt) := entries[key]]);
      }
      r := Ok(entries[key]);
    }
  }

  // ----- harvesting runs -----

  /** A call, or a line that someone else appends to the same log. */
  datatype Event = Call(prompt: string, liveOk: bool, live: Result<string>) | Foreign(line: Line)

  /** A line that the reader of this provider and model skips. */
  predicate IsForeign(provider: string, model: string, line: Line) {
    || line.Blank?
    || (line.Entry? && (Strip(line.schema) != "orch_llm_replay_row_v1" || Strip(line.backend) != provider || Strip(line.model) != model))
  }

  ghost predicate GoodEvents(provider: string, model: string, es: seq<Event>) {
    forall i :: 0 <= i < |es| && es[i].Foreign? ==> IsForeign(provider, model, es[i].line)
  }

  function Advance(o: Oracles, provider: string, model: string, h: Harvest, e: Event): Harvest {
    match e
    case Call(prompt, liveOk, live) => HarvestCall(o, provider, model, h, prompt, liveOk, live).1
    case Foreign(line) => h.(log := Some(Append(h.log, line)))
  }

  /** The backend after the events. */
  function After(o: Oracles, provider: string, model: string, h: Harvest, es: seq<Event>): Harvest {
    if |es| == 0 then h
    else Advance(o, provider, model, After(o, provider, model, h, es[..|es| - 1]), es[|es| - 1])
  }

  /** What call `i` was answered. */
  function Answer(o: Oracles, provider: string, model: string, h: Harvest, es: seq<Event>, i: nat): Result<string>
    requires i < |es| && es[i].Call?
  {
    HarvestCall(o, provider, model, After(o, provider, model, h, es[..i]), es[i].prompt, es[i].liveOk, es[i].live).0
  }

  /** The event asks the provider for this prompt and is answered. */
  predicate AsksLive(o: Oracles, h: Harvest, e: Event, prompt: string) {
    e.Call? && e.prompt == prompt && !Cached(o, h, prompt) && e.liveOk && e.live.Ok?
  }

  /** The last live response to a prompt. */
  function LastLive(o: Oracles, provider: string, model: string, h: Harvest, es: seq<Event>, prompt: string): Option<string> {
    if |es| == 0 then None
    else if AsksLive(o, After(o, provider, model, h, es[..|es| - 1]), es[|es| - 1], prompt) then Some(es[|es| - 1].live.value)
    else LastLive(o, provider, model, h, es[..|es| - 1], prompt)
  }

  ghost predicate Injective(f: string -> string) {
    forall x, y :: f(x) == f(y) ==> x == y
  }

  // ----- the log holds the last live response -----

  /** The lines of a log, none if it is absent. */
  function Lines(log: Option<seq<Line>>): seq<Line> {
    if log.Some? then log.value else []
  }

  /** Every row of this provider and model in the log is well formed. */
  predicate Readable(o: Oracles, provider: string, model: string, log: Option<seq<Line>>) {
    ReadLines(o, provider, model, Lines(log)).Ok?
  }

  /** What the log holds for a prompt. */
  function LogEntry(o: Oracles, provider: string, model: string, log: Option<seq<Line>>, prompt: string): Option<string>
    requires Readable(o, provider, model, log)
  {
    var m := ReadLines(o, provider, model, Lines(log)).value;
    var k := Key(provider, model, o.sha(prompt));
    if k in m then Some(m[k]) else None
  }

  lemma ReadAppended(o: Oracles, provider: string, model: string, lines: seq<Line>, line: Line)
    requires ReadLines(o, provider, model, lines).Ok?
    ensures ReadLines(o, provider, model, lines + [line])
         == ReadLine(o, provider, model, ReadLines(o, provider, model, lines).value, line)
  {
    assert (lines + [line])[..|lines|] == lines;
  }

  lemma OwnRowReads(o: Oracles, provider: string, model: string, entries: Entries, prompt: string, response: string)
    requires Strip(provider) == provider && Strip(model) == model
    ensures ReadLine(o, provider, model, entries, RowOf(o, provider, model, prompt, response))
         == Ok(entries[Key(provider, model, o.sha(prompt)) := response])
  {
    SchemaIsStripped();
  }

  lemma ForeignLineReads(o: Oracles, provider: string, model: string, entries: Entries, line: Line)
    requires IsForeign(provider, model, line)
    ensures ReadLine(o, provider, model, entries, line) == Ok(entries)
  {
  }

  lemma OneMoreLine(o: Oracles, provider: string, model: string, h: Harvest, e: Event, prompt: string)
    requires Strip(provider) == provider && Strip(model) == model && Injective(o.sha)
    requires e.Foreign? ==> IsForeign(provider, model, e.line)
    requires Readable(o, provider, model, h.log)
    ensures var log := Advance(o, provider, model, h, e).log;
      && Readable(o, provider, model, log)
      && LogEntry(o, provider, model, log, prompt)
         == if AsksLive(o, h, e, prompt) then Some(e.live.value) else LogEntry(o, provider, model, h.log, prompt)
  {
    hide ReadLine, ReadLines, Strip, IsForeign;
    var lines, m := Lines(h.log), ReadLines(o, provider, model, Lines(h.log)).value;
    match e
    case Foreign(line) =>
      ReadAppended(o, provider, model, lines, line);
      ForeignLineReads(o, provider, model, m, line);
    case Call(p, liveOk, live) =>
      if !Cached(o, h, p) && liveOk && live.Ok? {
        ReadAppended(o, provider, model, lines, RowOf(o, provider, model, p, live.value));
        OwnRowReads(o, provider, model, m, p, live.value);
      }
  }

  lemma SchemaIsStripped()
    ensures Strip(ROW_SCHEMA) == ROW_SCHEMA
  {
    assert IsStripped(ROW_SCHEMA);
    StripStripped(ROW_SCHEMA);
  }

  /** A readable log stays readable, and its entry of a prompt is the last live
      response, or what it held at the start. */
  lemma {:induction false} LogHoldsLast(o: Oracles, provider: string, model: string, h: Harvest, es: seq<Event>, prompt: string)
    requires Strip(provider) == provider && Strip(model) == model && Injective(o.sha)
    requires Readable(o, provider, model, h.log) && GoodEvents(provider, model, es)
    ensures var log, last := After(o, provider, model, h, es).log, LastLive(o, provider, model, h, es, prompt);
      && Readable(o, provider, model, log)
      && LogEntry(o, provider, model, log, prompt)
         == if last.Some? then last else LogEntry(o, provider, model, h.log, prompt)
  {
    hide Readable, LogEntry, Advance, AsksLive, IsForeign;
    if |es| != 0 {
      var n := |es| - 1;
      LogHoldsLast(o, provider, model, h, es[..n], prompt);
      OneMoreLine(o, provider, model, After(o, provider, model, h, es[..n]), es[n], prompt);
    }
  }

  // ----- the cache holds it too -----

  /** What the cache holds for a prompt. */
  function CacheEntry(o: Oracles, cache: Option<map<string, string>>, prompt: string): Option<string> {
    if cache.Some? && o.digest(prompt) in cache.value then Some(cache.value[o.digest(prompt)]) else None
  }

  lemma {:induction false} CacheHoldsLast(o: Oracles, provider: string, model: string, h: Harvest, es: seq<Event>, prompt: string)
    requires Injective(o.digest) && h.cache.Some?
    ensures var c, last := After(o, provider, model, h, es).cache, LastLive(o, provider, model, h, es, prompt);
      && c.Some?
      && CacheEntry(o, c, prompt) == if last.Some? then last else CacheEntry(o, h.cache, prompt)
  {
    if |es| != 0 {
      CacheHoldsLast(o, provider, model, h, es[..|es| - 1], prompt);
    }
  }

  /** Once a prompt has a live response under a cache, that response is final. */
  lemma {:induction false} LastLiveStays(o: Oracles, provider: string, model: string, h: Harvest, es: seq<Event>, n: nat, prompt: string)
    requires Injective(o.digest) && h.cache.Some? && n <= |es|
    requires LastLive(o, provider, model, h, es[..n], prompt).Some?
    ensures LastLive(o, provider, model, h, es, prompt) == LastLive(o, provider, model, h, es[..n], prompt)
    decreases |es|
  {
    hide After;
    if n == |es| {
      assert es[..n] == es;
    } else {
      var m := |es| - 1;
      assert es[..m][..n] == es[..n];
      LastLiveStays(o, provider, model, h, es[..m], n, prompt);
      CacheHoldsLast(o, provider, model, h, es[..m], prompt);
    }
  }

  /** A prompt that is cached at the start is never asked live. */
  lemma {:induction false} CachedIsNeverLive(o: Oracles, provider: string, model: string, h: Harvest, es: seq<Event>, prompt: string)
    requires Injective(o.digest) && Cached(o, h, prompt)
    ensures LastLive(o, provider, model, h, es, prompt).None?
  {
    hide After;
    if |es| != 0 {
      CachedIsNeverLive(o, provider, model, h, es[..|es| - 1], prompt);
      CacheHoldsLast(o, provider, model, h, es[..|es| - 1], prompt);
    }
  }

  /** A cache keeps a provider from being asked twice: after a live response no later
      call for the same prompt is live. */
  lemma LiveOnce(o: Oracles, provider: string, model: string, h: Harvest, es: seq<Event>, i: nat, j: nat, prompt: string)
    requires Injective(o.digest) && h.cache.Some? && i < j < |es|
    requires AsksLive(o, After(o, provider, model, h, es[..i]), es[i], prompt)
    ensures !AsksLive(o, After(o, provider, model, h, es[..j]), es[j], prompt)
  {
    assert es[..i + 1][..i] == es[..i] && es[..j][..i + 1] == es[..i + 1];
    assert LastLive(o, provider, model, h, es[..i + 1], prompt).Some?;
    hide After;
    LastLiveStays(o, provider, model, h, es[..j], i + 1, prompt);
    CacheHoldsLast(o, provider, model, h, es[..j], prompt);
  }

  /** How many of the events are lines of others. */
  function ForeignCount(es: seq<Event>): nat {
    if |es| == 0 then 0 else ForeignCount(es[..|es| - 1]) + if es[|es| - 1].Foreign? then 1 else 0
  }

  /** The call counter counts the rows this backend wrote, no more and no less. */
  lemma {:induction false} CallsAreRows(o: Oracles, provider: string, model: string, h: Harvest, es: seq<Event>)
    ensures var r := After(o, provider, model, h, es);
      |Lines(r.log)| == |Lines(h.log)| + (r.calls - h.calls) + ForeignCount(es)
  {
    hide Advance;
    if |es| != 0 {
      var n := |es| - 1;
      CallsAreRows(o, provider, model, h, es[..n]);
      OneRowPerCall(o, provider, model, After(o, provider, model, h, es[..n]), es[n]);
    }
  }

  lemma OneRowPerCall(o: Oracles, provider: string, model: string, h: Harvest, e: Event)
    ensures var r := Advance(o, provider, model, h, e);
      |Lines(r.log)| == |Lines(h.log)| + (r.calls - h.calls) + if e.Foreign? then 1 else 0
  {
    hide RowOf;
  }

  /** Every answered call is answered with the last live response so far, or with
      what was cached at the start. */
  lemma AnswerIsLastLive(o: Oracles, provider: string, model: string, h: Harvest, es: seq<Event>, i: nat)
    requires Injective(o.digest) && h.cache.Some? && i < |es| && es[i].Call?
    requires Answer(o, provider, model, h, es, i).Ok?
    ensures var last := LastLive(o, provider, model, h, es[..i + 1], es[i].prompt);
      Some(Answer(o, provider, model, h, es, i).value) == if last.Some? then last else CacheEntry(o, h.cache, es[i].prompt)
  {
    CacheHoldsLast(o, provider, model, h, es[..i], es[i].prompt);
    assert es[..i + 1][..i] == es[..i];
  }

  // ----- main results -----

  /** What a replay backend without a cache answers from a log. */
  ghost function ReplayAnswer(o: Oracles, provider: string, model: string, log: Option<seq<Line>>, prompt: string): Result<string> {
    var entries :- LoadEntries(o, provider, model, log);
    ReplayCall(o, provider, model, entries, Replay(None, 0), prompt).0
  }

  lemma ReplayReadsLog(o: Oracles, provider: string, model: string, log: Option<seq<Line>>, prompt: string)
    requires Readable(o, provider, model, log)
    ensures var entry, r := LogEntry(o, provider, model, log, prompt), ReplayAnswer(o, provider, model, log, prompt);
      && (entry.Some? ==> r == Ok(entry.value))
      && (entry.None? ==> r.Fail?)
  {
  }

  /** Cached harvest, then replay: from any cache and any readable log, whatever
      foreign rows arrive in between, replay answers a prompt with what harvesting
      answered on every call, exactly when an answer cached at the start was in the
      log as well. In particular always for a prompt that was not cached. */
  lemma CachedHarvestReplays(o: Oracles, provider: string, model: string, h: Harvest, es: seq<Event>, i: nat)
    requires Strip(provider) == provider && Strip(model) == model && Injective(o.sha) && Injective(o.digest)
    requires h.cache.Some? && Readable(o, provider, model, h.log) && GoodEvents(provider, model, es)
    requires i < |es| && es[i].Call? && Answer(o, provider, model, h, es, i).Ok?
    ensures ReplayAnswer(o, provider, model, After(o, provider, model, h, es).log, es[i].prompt)
              == Answer(o, provider, model, h, es, i)
      <==> (Cached(o, h, es[i].prompt) ==>
              LogEntry(o, provider, model, h.log, es[i].prompt) == CacheEntry(o, h.cache, es[i].prompt))
  {
    hide Readable, LogEntry, ReplayAnswer, After, LastLive, Answer;
    var prompt := es[i].prompt;
    AnswerIsLastLive(o, provider, model, h, es, i);
    LogHoldsLast(o, provider, model, h, es, prompt);
    ReplayReadsLog(o, provider, model, After(o, provider, model, h, es).log, prompt);
    if Cached(o, h, prompt) {
      CachedIsNeverLive(o, provider, model, h, es, prompt);
      CachedIsNeverLive(o, provider, model, h, es[..i + 1], prompt);
    } else {
      LastLiveStays(o, provider, model, h, es, i + 1, prompt);
    }
  }

  lemma {:induction false} LogGrows(o: Oracles, provider: string, model: string, h: Harvest, es: seq<Event>)
    ensures Lines(h.log) <= Lines(After(o, provider, model, h, es).log)
  {
    hide RowOf;
    if |es| != 0 {
      LogGrows(o, provider, model, h, es[..|es| - 1]);
    }
  }

  /** The log must be readable to begin with: no harvesting mends one that is not,
      and nothing is ever replayed from it. */
  lemma UnreadableStays(o: Oracles, provider: string, model: string, h: Harvest, es: seq<Event>, prompt: string)
    requires !Readable(o, provider, model, h.log)
    ensures ReplayAnswer(o, provider, model, After(o, provider, model, h, es).log, prompt).Fail?
  {
    hide After;
    LogGrows(o, provider, model, h, es);
    var before, after := Lines(h.log), Lines(After(o, provider, model, h, es).log);
    assert after[..|before|] == before;
    ReadFailsEarly(o, provider, model, after, |before|);
  }

  /** The condition can fail: an answer that only the cache knows is not replayed. */
  lemma WarmCacheIsNotReplayed(o: Oracles, provider: string, model: string, prompt: string, response: string, live: Result<string>)
    ensures var h, es := Harvest(Some(map[o.digest(prompt) := response]), None, 0), [Call(prompt, true, live)];
      && Answer(o, provider, model, h, es, 0) == Ok(response)
      && ReplayAnswer(o, provider, model, After(o, provider, model, h, es).log, prompt).Fail?
  {
    var h, es := Harvest(Some(map[o.digest(prompt) := response]), None, 0), [Call(prompt, true, live)];
    assert es[..0] == [];
    assert After(o, provider, model, h, es[..0]) == h;
  }

  /** Whatever the cache answers, the log answers too. */
  ghost predicate Coherent(o: Oracles, provider: string, model: string, cache: Option<map<string, string>>, log: Option<seq<Line>>)
    requires Readable(o, provider, model, log)
  {
    forall prompt :: CacheEntry(o, cache, prompt).Some? ==>
      CacheEntry(o, cache, prompt) == LogEntry(o, provider, model, log, prompt)
  }

  /** Harvesting neither makes cache and log agree nor lets them drift apart. */
  lemma HarvestKeepsCoherent(o: Oracles, provider: string, model: string, h: Harvest, es: seq<Event>)
    requires Strip(provider) == provider && Strip(model) == model && Injective(o.sha) && Injective(o.digest)
    requires h.cache.Some? && Readable(o, provider, model, h.log) && GoodEvents(provider, model, es)
    ensures var r := After(o, provider, model, h, es);
      && Readable(o, provider, model, r.log)
      && (Coherent(o, provider, model, r.cache, r.log) <==> Coherent(o, provider, model, h.cache, h.log))
  {
    hide Readable, LogEntry, CacheEntry, After, LastLive;
    var r := After(o, provider, model, h, es);
    LogHoldsLast(o, provider, model, h, es, "");
    forall prompt
      ensures CacheEntry(o, r.cache, prompt).Some? && CacheEntry(o, r.cache, prompt) != LogEntry(o, provider, model, r.log, prompt)
         <==> CacheEntry(o, h.cache, prompt).Some? && CacheEntry(o, h.cache, prompt) != LogEntry(o, provider, model, h.log, prompt)
    {
      SameDrift(o, provider, model, h, es, prompt);
    }
  }

  lemma SameDrift(o: Oracles, provider: string, model: string, h: Harvest, es: seq<Event>, prompt: string)
    requires Strip(provider) == provider && Strip(model) == model && Injective(o.sha) && Injective(o.digest)
    requires h.cache.Some? && Readable(o, provider, model, h.log) && GoodEvents(provider, model, es)
    ensures var r := After(o, provider, model, h, es);
      && Readable(o, provider, model, r.log)
      && (CacheEntry(o, r.cache, prompt).Some? && CacheEntry(o, r.cache, prompt) != LogEntry(o, provider, model, r.log, prompt)
          <==> CacheEntry(o, h.cache, prompt).Some? && CacheEntry(o, h.cache, prompt) != LogEntry(o, provider, model, h.log, prompt))
  {
    hide Readable, LogEntry, After, LastLive;
    LogHoldsLast(o, provider, model, h, es, prompt);
    CacheHoldsLast(o, provider, model, h, es, prompt);
    if CacheEntry(o, h.cache, prompt).Some? {
      CachedIsNeverLive(o, provider, model, h, es, prompt);
    }
  }

  /** One replay: an answered prompt is cached, if there is a cache, all others stay
      as they were; only answers that the cache did not know are counted; a failing
      replay changes nothing. */
  lemma ReplayMeaning(o: Oracles, provider: string, model: string, entries: Entries, p: Replay, prompt: string, other: string)
    requires Injective(o.digest)
    ensures var r := ReplayCall(o, provider, model, entries, p, prompt);
      && (r.0.Fail? ==> r.1 == p)
      && (r.1.cache.Some? <==> p.cache.Some?)
      && (r.0.Ok? && p.cache.Some? ==> CacheEntry(o, r.1.cache, prompt) == Some(r.0.value))
      && (other != prompt ==> CacheEntry(o, r.1.cache, other) == CacheEntry(o, p.cache, other))
      && r.1.calls == p.calls + (if r.0.Ok? && CacheEntry(o, p.cache, prompt).None? then 1 else 0)
  {
  }

  /** The replay backend after replaying these prompts. */
  function Replayed(o: Oracles, provider: string, model: string, entries: Entries, p: Replay, prompts: seq<string>): Replay {
    if |prompts| == 0 then p
    else
      var n := |prompts| - 1;
      ReplayCall(o, provider, model, entries, Replayed(o, provider, model, entries, p, prompts[..n]), prompts[n]).1
  }

  /** After replaying `prompts` from `cache`, `prompt` is answered as from the log. */
  ghost predicate AnswersAsLog(o: Oracles, provider: string, model: string, cache: Option<map<string, string>>,
                               log: Option<seq<Line>>, prompts: seq<string>, prompt: string)
    requires LoadEntries(o, provider, model, log).Ok?
  {
    var entries := LoadEntries(o, provider, model, log).value;
    ReplayCall(o, provider, model, entries, Replayed(o, provider, model, entries, Replay(cache, 0), prompts), prompt).0
      == ReplayAnswer(o, provider, model, log, prompt)
  }

  lemma ReplayKeepsCoherent(o: Oracles, provider: string, model: string, log: Option<seq<Line>>, p: Replay, prompt: string)
    requires Injective(o.digest) && LoadEntries(o, provider, model, log).Ok? && Readable(o, provider, model, log)
    requires Coherent(o, provider, model, p.cache, log)
    ensures var r := ReplayCall(o, provider, model, LoadEntries(o, provider, model, log).value, p, prompt);
      && r.0 == ReplayAnswer(o, provider, model, log, prompt)
      && Coherent(o, provider, model, r.1.cache, log)
  {
    hide ReadLines;
    assert CacheEntry(o, p.cache, prompt).Some? ==> CacheEntry(o, p.cache, prompt) == LogEntry(o, provider, model, log, prompt);
  }

  lemma {:induction false} ReplayedIsCoherent(o: Oracles, provider: string, model: string, log: Option<seq<Line>>, p: Replay, prompts: seq<string>)
    requires Injective(o.digest) && LoadEntries(o, provider, model, log).Ok? && Readable(o, provider, model, log)
    requires Coherent(o, provider, model, p.cache, log)
    ensures Coherent(o, provider, model, Replayed(o, provider, model, LoadEntries(o, provider, model, log).value, p, prompts).cache, log)
  {
    hide Coherent, ReplayCall, LoadEntries, Readable;
    if |prompts| != 0 {
      var n := |prompts| - 1;
      ReplayedIsCoherent(o, provider, model, log, p, prompts[..n]);
      ReplayKeepsCoherent(o, provider, model, log,
                          Replayed(o, provider, model, LoadEntries(o, provider, model, log).value, p, prompts[..n]), prompts[n]);
    }
  }

  lemma FirstAnswerShows(o: Oracles, provider: string, model: string, cache: Option<map<string, string>>, log: Option<seq<Line>>, prompt: string)
    requires LoadEntries(o, provider, model, log).Ok? && Readable(o, provider, model, log)
    requires AnswersAsLog(o, provider, model, cache, log, [], prompt) && CacheEntry(o, cache, prompt).Some?
    ensures CacheEntry(o, cache, prompt) == LogEntry(o, provider, model, log, prompt)
  {
    hide Readable, LogEntry, LoadEntries;
    ReplayReadsLog(o, provider, model, log, prompt);
  }

  /** A replay backend's cache is transparent, after any replays and for every
      prompt, exactly when it starts coherent with the log: so no cache, an empty
      one, and the cache of a harvest that started coherent. */
  lemma CacheIsTransparentIff(o: Oracles, provider: string, model: string, cache: Option<map<string, string>>, log: Option<seq<Line>>)
    requires Injective(o.digest) && LoadEntries(o, provider, model, log).Ok?
    ensures Readable(o, provider, model, log)
    ensures Coherent(o, provider, model, cache, log) <==>
      forall prompts, prompt :: AnswersAsLog(o, provider, model, cache, log, prompts, prompt)
  {
    assert Readable(o, provider, model, log);
    hide Readable, LogEntry, LoadEntries, CacheEntry, ReplayCall;
    if Coherent(o, provider, model, cache, log) {
      forall prompts, prompt ensures AnswersAsLog(o, provider, model, cache, log, prompts, prompt) {
        var entries := LoadEntries(o, provider, model, log).value;
        ReplayedIsCoherent(o, provider, model, log, Replay(cache, 0), prompts);
        ReplayKeepsCoherent(o, provider, model, log, Replayed(o, provider, model, entries, Replay(cache, 0), prompts), prompt);
      }
    }
    if forall prompts, prompt :: AnswersAsLog(o, provider, model, cache, log, prompts, prompt) {
      forall prompt | CacheEntry(o, cache, prompt).Some?
        ensures CacheEntry(o, cache, prompt) == LogEntry(o, provider, model, log, prompt)
      {
        assert AnswersAsLog(o, provider, model, cache, log, [], prompt);
        FirstAnswerShows(o, provider, model, cache, log, prompt);
      }
    }
  }

  /** Without a cache, replay answers with the last response: the answer of a call
      that no answered call for the same prompt follows. */
  lemma UncachedHarvestReplaysLast(o: Oracles, provider: string, model: string, h: Harvest, es: seq<Event>, i: nat)
    requires Strip(provider) == provider && Strip(model) == model && Injective(o.sha)
    requires h.cache == None && Readable(o, provider, model, h.log) && GoodEvents(provider, model, es)
    requires i < |es| && es[i].Call? && Answer(o, provider, model, h, es, i).Ok?
    requires forall j :: i < j < |es| && es[j].Call? && es[j].prompt == es[i].prompt ==> Answer(o, provider, model, h, es, j).Fail?
    ensures ReplayAnswer(o, provider, model, After(o, provider, model, h, es).log, es[i].prompt)
         == Answer(o, provider, model, h, es, i)
  {
    hide Readable, LogEntry, ReplayAnswer, After, LastLive, Answer;
    LastIsLast(o, provider, model, h, es, i);
    LogHoldsLast(o, provider, model, h, es, es[i].prompt);
    ReplayReadsLog(o, provider, model, After(o, provider, model, h, es).log, es[i].prompt);
  }

  lemma {:induction false} NoCacheStays(o: Oracles, provider: string, model: string, h: Harvest, es: seq<Event>)
    requires h.cache == None
    ensures After(o, provider, model, h, es).cache == None
  {
    if |es| != 0 {
      NoCacheStays(o, provider, model, h, es[..|es| - 1]);
    }
  }

  lemma {:induction false} LastIsLast(o: Oracles, provider: string, model: string, h: Harvest, es: seq<Event>, i: nat)
    requires h.cache == None && i < |es| && es[i].Call? && Answer(o, provider, model, h, es, i).Ok?
    requires forall j :: i < j < |es| && es[j].Call? && es[j].prompt == es[i].prompt ==> Answer(o, provider, model, h, es, j).Fail?
    ensures LastLive(o, provider, model, h, es, es[i].prompt) == Some(Answer(o, provider, model, h, es, i).value)
    decreases |es|
  {
    var n := |es| - 1;
    NoCacheStays(o, provider, model, h, es[..n]);
    if i < n {
      assert forall j :: 0 <= j <= n ==> es[..n][..j] == es[..j];
      assert Answer(o, provider, model, h, es[..n], i) == Answer(o, provider, model, h, es, i);
      forall j | i < j < n && es[..n][j].Call? && es[..n][j].prompt == es[i].prompt
        ensures Answer(o, provider, model, h, es[..n], j).Fail?
      {
        assert Answer(o, provider, model, h, es[..n], j) == Answer(o, provider, model, h, es, j);
      }
      LastIsLast(o, provider, model, h, es[..n], i);
    }
  }

  /** A prompt that was never answered is replayed from the starting log, or not at all. */
  lemma UnansweredIsUnchanged(o: Oracles, provider: string, model: string, h: Harvest, es: seq<Event>, prompt: string)
    requires Strip(provider) == provider && Strip(model) == model && Injective(o.sha)
    requires Readable(o, provider, model, h.log) && GoodEvents(provider, model, es)
    requires forall i :: 0 <= i < |es| && es[i].Call? && es[i].prompt == prompt ==> Answer(o, provider, model, h, es, i).Fail?
    ensures var entry, r := LogEntry(o, provider, model, h.log, prompt), ReplayAnswer(o, provider, model, After(o, provider, model, h, es).log, prompt);
      && (entry.Some? ==> r == Ok(entry.value))
      && (entry.None? ==> r.Fail?)
  {
    hide Readable, LogEntry, ReplayAnswer, After, LastLive, Answer;
    NeverLive(o, provider, model, h, es, prompt);
    LogHoldsLast(o, provider, model, h, es, prompt);
    ReplayReadsLog(o, provider, model, After(o, provider, model, h, es).log, prompt);
  }

  lemma {:induction false} NeverLive(o: Oracles, provider: string, model: string, h: Harvest, es: seq<Event>, prompt: string)
    requires forall i :: 0 <= i < |es| && es[i].Call? && es[i].prompt == prompt ==> Answer(o, provider, model, h, es, i).Fail?
    ensures LastLive(o, provider, model, h, es, prompt).None?
  {
    if |es| != 0 {
      var n := |es| - 1;
      assert forall j :: 0 <= j <= n ==> es[..n][..j] == es[..j];
      forall j | 0 <= j < n && es[..n][j].Call? && es[..n][j].prompt == prompt
        ensures Answer(o, provider, model, h, es[..n], j).Fail?
      {
        assert Answer(o, provider, model, h, es[..n], j) == Answer(o, provider, model, h, es, j);
      }
      NeverLive(o, provider, model, h, es[..n], prompt);
    }
  }
}
