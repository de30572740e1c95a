/** One run: load the announced codes, collect the codes of every source,
    post the new ones, and save the grown set only after a successful post. */
module Orchestrator {
  import opened StringOrder
  import opened Extractor
  import opened Diff
  import opened Notifier
  import opened StateStore

  datatype Source = Source(name: string, url: string)

  /** The settings of a run: webhook URL and role id as read (and trimmed)
      from the environment, and the pages to scrape. */
  datatype Config = Config(webhook: string, pingRoleId: string, sources: seq<Source>)

  const ConfiguredSources: seq<Source> := [
    Source("kingshot.net gift-codes", "https://kingshot.net/gift-codes"),
    Source("eldorado codes", "https://www.eldorado.gg/blog/kingshot-redeem-code/")
  ]

  /** The outcome of fetching one page. */
  datatype Fetch = Fetched(text: string) | FetchFailed

  /** What one source contributes: its codes, or nothing when its fetch failed. */
  function Found(f: Fetch): (codes: set<string>)
    ensures f.FetchFailed? ==> codes == {}
    ensures f.Fetched? ==> codes == ExtractCodes(f.text)
  {
    match f
    case Fetched(text) => ExtractCodes(text)
    case FetchFailed => {}
  }

  function Names(sources: seq<Source>): (names: seq<string>)
    ensures |names| == |sources|
    ensures forall k :: 0 <= k < |sources| ==> names[k] == sources[k].name
  {
    seq(|sources|, k requires 0 <= k < |sources| => sources[k].name)
  }

  /** The `per_source` dictionary after the loop has visited `sources`. */
  function Collect(sources: seq<Source>, fetch: string -> Fetch): (p: PerSource)
    ensures p.Valid()
    ensures forall n :: n in p.codes <==> n in Names(sources)
    decreases |sources|
  {
    if sources == [] then Empty
    else
      var last := sources[|sources| - 1];
      var before := sources[..|sources| - 1];
      assert forall n :: n in Names(sources) <==> n in Names(before) || n == last.name by {
        assert Names(sources) == Names(before) + [last.name];
      }
      Collect(before, fetch).Put(last.name, Found(fetch(last.url)))
  }

  /** One more loop step: the next source's codes are assigned under its name. */
  lemma CollectStep(sources: seq<Source>, s: Source, fetch: string -> Fetch)
    ensures Collect(sources + [s], fetch) == Collect(sources, fetch).Put(s.name, Found(fetch(s.url)))
  {
    assert (sources + [s])[..|sources|] == sources;
  }

  /** With distinct names, each source's entry is what its own fetch gave,
      whatever happened to the other sources. */
  lemma {:induction false} CollectIsolatesSources(sources: seq<Source>, fetch: string -> Fetch, k: nat)
    requires Distinct(Names(sources))
    requires k < |sources|
    ensures sources[k].name in Collect(sources, fetch).codes
    ensures Collect(sources, fetch).codes[sources[k].name] == Found(fetch(sources[k].url))
    decreases |sources|
  {
    var n := |sources| - 1;
    var before, last := sources[..n], sources[n];
    assert before + [last] == sources;
    CollectStep(before, last, fetch);
    if k < n {
      assert Names(before) == Names(sources)[..n];
      CollectIsolatesSources(before, fetch, k);
      assert before[k] == sources[k];
      assert sources[k].name != last.name by {
        assert Names(sources)[k] != Names(sources)[n];
      }
    }
  }

  /** With distinct names, the dictionary lists the sources in configured order. */
  lemma {:induction false} CollectKeepsConfiguredOrder(sources: seq<Source>, fetch: string -> Fetch)
    requires Distinct(Names(sources))
    ensures Collect(sources, fetch).order == Names(sources)
    decreases |sources|
  {
    if sources != [] {
      var before := sources[..|sources| - 1];
      assert Names(before) == Names(sources)[..|sources| - 1];
      CollectKeepsConfiguredOrder(before, fetch);
      assert Names(sources) == Names(before) + [sources[|sources| - 1].name];
      assert sources[|sources| - 1].name !in Names(before);
    }
  }

  /** With distinct names, a failing source changes nothing for the others: a
      source whose own fetch gave the same outcome in two runs has the same
      entry in both, whatever the other fetches gave. */
  lemma OtherSourcesUnaffected(sources: seq<Source>, fetch: string -> Fetch, fetch': string -> Fetch, j: nat)
    requires Distinct(Names(sources))
    requires j < |sources|
    requires fetch(sources[j].url) == fetch'(sources[j].url)
    ensures Collect(sources, fetch).codes[sources[j].name] == Collect(sources, fetch').codes[sources[j].name]
  {
    CollectIsolatesSources(sources, fetch, j);
    CollectIsolatesSources(sources, fetch', j);
  }

  /** How a run ends: nothing new (no post, no save), posted and saved, or
      the post failed (the run fails and nothing is saved). */
  datatype RunOutcome = NoNewCodes | Posted(count: nat, content: string) | PostAborted(error: PostError)

  datatype RunResult = RunResult(outcome: RunOutcome, stored: StoredState)

  function SetOf(xs: seq<string>): (s: set<string>)
    ensures forall c :: c in s <==> c in xs
  {
    set c | c in xs
  }

  /** The codes a run announces: found at some source, not announced before. */
  function RunNewCodes(cfg: Config, fetch: string -> Fetch, prior: StoredState): seq<string>
  {
    NewCodes(Collect(cfg.sources, fetch), Load(prior))
  }

  /** The sources a run credits. */
  function RunSourcesHit(cfg: Config, fetch: string -> Fetch, prior: StoredState): seq<string>
  {
    SourcesHit(Collect(cfg.sources, fetch), RunNewCodes(cfg, fetch, prior))
  }

  /** The whole run as a function of the stored state it starts from, the
      outcome of each fetch, whether the webhook accepts the post and the
      time stamp. */
  function RunSpec(cfg: Config, fetch: string -> Fetch, delivered: bool, now: string, prior: StoredState): RunResult
  {
    var newCodes := RunNewCodes(cfg, fetch, prior);
    if newCodes == [] then RunResult(NoNewCodes, prior)
    else
      match Post(cfg.webhook, cfg.pingRoleId, now, newCodes, RunSourcesHit(cfg, fetch, prior), delivered)
      case PostFailed(e) => RunResult(PostAborted(e), prior)
      case Delivered(content) => RunResult(Posted(|newCodes|, content), Saved(Load(prior) + SetOf(newCodes)))
  }

  /** Nothing new: no post and no save. */
  lemma RunWithNothingNew(cfg: Config, fetch: string -> Fetch, delivered: bool, now: string, prior: StoredState)
    ensures RunSpec(cfg, fetch, delivered, now, prior).outcome == NoNewCodes <==> RunNewCodes(cfg, fetch, prior) == []
    ensures RunSpec(cfg, fetch, delivered, now, prior).outcome == NoNewCodes ==> RunSpec(cfg, fetch, delivered, now, prior).stored == prior
  {
  }

  /** When every code found has been announced, the run is a no-op. */
  lemma RunWithEverythingAnnounced(cfg: Config, fetch: string -> Fetch, delivered: bool, now: string, prior: StoredState)
    requires AllCodes(Collect(cfg.sources, fetch)) <= Load(prior)
    ensures RunSpec(cfg, fetch, delivered, now, prior) == RunResult(NoNewCodes, prior)
  {
  }

  /** A failed post (including a missing webhook) fails the run and saves nothing. */
  lemma RunWithFailedPost(cfg: Config, fetch: string -> Fetch, delivered: bool, now: string, prior: StoredState)
    ensures RunSpec(cfg, fetch, delivered, now, prior).outcome.PostAborted? <==>
      RunNewCodes(cfg, fetch, prior) != [] && (cfg.webhook == "" || !delivered)
    ensures RunSpec(cfg, fetch, delivered, now, prior).outcome.PostAborted? ==>
      RunSpec(cfg, fetch, delivered, now, prior).stored == prior
      && (RunSpec(cfg, fetch, delivered, now, prior).outcome.error == MissingWebhook <==> cfg.webhook == "")
  {
  }

  /** A successful post saves the old set grown by the new codes, as a
      sorted list, and reports how many codes were posted and where from. */
  lemma RunWithDeliveredPost(cfg: Config, fetch: string -> Fetch, delivered: bool, now: string, prior: StoredState)
    ensures RunSpec(cfg, fetch, delivered, now, prior).outcome.Posted? <==>
      RunNewCodes(cfg, fetch, prior) != [] && cfg.webhook != "" && delivered
    ensures var r := RunSpec(cfg, fetch, delivered, now, prior);
      var newCodes := RunNewCodes(cfg, fetch, prior);
      r.outcome.Posted? ==>
        && r.outcome.count == |newCodes| > 0
        && r.outcome.content == Content(cfg.pingRoleId, now, newCodes, RunSourcesHit(cfg, fetch, prior))
        && RunSourcesHit(cfg, fetch, prior) != []
        && r.stored.Record? && StrictlyAscending(r.stored.codes)
        && Load(r.stored) == Load(prior) + SetOf(newCodes)
  {
    var newCodes := RunNewCodes(cfg, fetch, prior);
    if newCodes != [] {
      SomeSourceHitWhenNew(Collect(cfg.sources, fetch), Load(prior));
      LoadSaved(Load(prior) + SetOf(newCodes));
    }
  }

  /** The announced set only grows. */
  lemma RunNeverForgets(cfg: Config, fetch: string -> Fetch, delivered: bool, now: string, prior: StoredState)
    ensures Load(prior) <= Load(RunSpec(cfg, fetch, delivered, now, prior).stored)
  {
    var newCodes := RunNewCodes(cfg, fetch, prior);
    if newCodes != [] {
      LoadSaved(Load(prior) + SetOf(newCodes));
    }
  }

  /** After a successful run, the same pages announce nothing new. */
  lemma RunAfterPostIsNoOp(cfg: Config, fetch: string -> Fetch, delivered: bool, now: string, prior: StoredState,
                           delivered': bool, now': string)
    requires RunSpec(cfg, fetch, delivered, now, prior).outcome.Posted?
    ensures var next := RunSpec(cfg, fetch, delivered, now, prior).stored;
      RunSpec(cfg, fetch, delivered', now', next) == RunResult(NoNewCodes, next)
  {
    RunWithDeliveredPost(cfg, fetch, delivered, now, prior);
    var next := RunSpec(cfg, fetch, delivered, now, prior).stored;
    EverythingAnnouncedAfterward(Collect(cfg.sources, fetch), Load(prior), Load(next));
    RunWithEverythingAnnounced(cfg, fetch, delivered', now', next);
  }

  lemma EverythingAnnouncedAfterward(p: PerSource, state: set<string>, next: set<string>)
    requires next == state + SetOf(NewCodes(p, state))
    ensures AllCodes(p) <= next
  {
  }

  /** After a failed post the next run offers the same codes again. */
  lemma RunAfterFailedPostRetries(cfg: Config, fetch: string -> Fetch, delivered: bool, now: string, prior: StoredState)
    requires RunSpec(cfg, fetch, delivered, now, prior).outcome.PostAborted?
    ensures RunNewCodes(cfg, fetch, RunSpec(cfg, fetch, delivered, now, prior).stored) == RunNewCodes(cfg, fetch, prior) != []
  {
  }

  /** `main`: loads the announced codes, collects each source's codes, and
      when some are new posts them and only then saves the grown set. */
  method Run(cfg: Config, fetch: string -> Fetch, delivered: bool, now: string, file: StateFile) returns (outcome: RunOutcome)
    modifies file
    ensures RunResult(outcome, file.stored) == RunSpec(cfg, fetch, delivered, now, old(file.stored))
    ensures !outcome.Posted? ==> file.stored == old(file.stored)
  {
    var state := file.LoadState();
    var perSource := Empty;
    var i := 0;
    while i < |cfg.sources|
      invariant i <= |cfg.sources|
      invariant perSource == Collect(cfg.sources[..i], fetch)
    {
      var source := cfg.sources[i];
      var found := Found(fetch(source.url));
      assert cfg.sources[..i + 1][..i] == cfg.sources[..i];
      perSource := perSource.Put(source.name, found);
      i := i + 1;
    }
    assert cfg.sources[..i] == cfg.sources;
    var newCodes := NewCodes(perSource, state);
    if newCodes == [] {
      return NoNewCodes;
    }
    var sourcesHit := SourcesHit(perSource, newCodes);
    var posted := Post(cfg.webhook, cfg.pingRoleId, now, newCodes, sourcesHit, delivered);
    if posted.PostFailed? {
      return PostAborted(posted.error);
    }
    state := state + SetOf(newCodes);
    file.SaveState(state);
    outcome := Posted(|newCodes|, posted.content);
  }
}
