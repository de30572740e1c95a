/** Worked runs of the announcer: a failing source, a failing webhook, and a
    one-page run from the page text to the saved file. Each is stated for
    every fetch outcome and configuration that fits it. */
module Scenarios {
  import opened Extractor
  import opened Diff
  import opened Notifier
  import opened StateStore
  import opened StringOrder
  import opened Orchestrator

  /** Of two sources, the first cannot be fetched and the second yields the one code x. */
  predicate OnlySecondAnswers(fetch: string -> Fetch, a: Source, b: Source, x: string)
  {
    fetch(a.url) == FetchFailed && Found(fetch(b.url)) == {x}
  }

  /** The dictionary after a loop over one source... */
  lemma SingleCollect(fetch: string -> Fetch, s: Source)
    ensures Collect([s], fetch) == PerSource([s.name], map[s.name := Found(fetch(s.url))])
  {
    CollectStep([], s, fetch);
    assert [] + [s] == [s];
  }

  /** ...and over two sources with different names. */
  lemma ScenarioCollect(fetch: string -> Fetch, a: Source, b: Source)
    requires a.name != b.name
    ensures Collect([a, b], fetch) ==
      PerSource([a.name, b.name], map[a.name := Found(fetch(a.url)), b.name := Found(fetch(b.url))])
  {
    SingleCollect(fetch, a);
    CollectStep([a], b, fetch);
    assert [a, b] == [a] + [b];
    var p1 := Collect([a], fetch);
    assert b.name !in p1.codes;
    assert p1.Put(b.name, Found(fetch(b.url))).order == [a.name, b.name];
  }

  /** The diff of that dictionary against an empty state. */
  lemma TwoSourceDiff(p: PerSource, a: string, b: string, x: string)
    requires a != b && p == PerSource([a, b], map[a := {}, b := {x}])
    ensures NewCodes(p, {}) == [x]
    ensures SourcesHit(p, [x]) == [b]
  {
    assert AllCodes(p) == {x} by {
      assert x in p.codes[b];
      assert forall n :: n in p.codes ==> p.codes[n] <= {x};
    }
    assert AllCodes(p) - {} == {x};
    SortSingleton(x);
    assert Shares(p.codes[b], [x]);
    assert !Shares(p.codes[a], [x]);
    assert p.order[1..] == [b] && p.order[1..][1..] == [];
    assert Hits([b], p.codes, [x]) == [b];
    assert Hits([a, b], p.codes, [x]) == [b];
  }

  /** With no prior state, the new list is the one code, credited to the
      second source only. */
  lemma ScenarioDiff(cfg: Config, fetch: string -> Fetch, a: Source, b: Source, x: string)
    requires cfg.sources == [a, b] && a.name != b.name && OnlySecondAnswers(fetch, a, b, x)
    ensures RunNewCodes(cfg, fetch, Missing) == [x]
    ensures RunSourcesHit(cfg, fetch, Missing) == [b.name]
  {
    ScenarioCollect(fetch, a, b);
    TwoSourceDiff(Collect([a, b], fetch), a.name, b.name, x);
    assert Load(Missing) == {};
  }

  /** A run that finds new codes and whose post goes through. */
  lemma DeliveredRun(cfg: Config, fetch: string -> Fetch, now: string, prior: StoredState, codes: seq<string>, hit: seq<string>)
    requires cfg.webhook != ""
    requires RunNewCodes(cfg, fetch, prior) == codes && codes != []
    requires RunSourcesHit(cfg, fetch, prior) == hit
    ensures RunSpec(cfg, fetch, true, now, prior)
      == RunResult(Posted(|codes|, Content(cfg.pingRoleId, now, codes, hit)), Saved(Load(prior) + SetOf(codes)))
  {
  }

  /** Saving one code over an empty state leaves a record of that code alone. */
  lemma SavedFirstCode(x: string)
    ensures Saved(Load(Missing) + SetOf([x])) == Record([x])
  {
    assert Load(Missing) == {};
    assert SetOf([x]) == {x};
    assert {} + {x} == {x};
    SortSingleton(x);
  }

  /** The failing source is skipped, the code is posted, credited to the
      second source only, and saved. */
  lemma FailureIsolation(cfg: Config, fetch: string -> Fetch, now: string, a: Source, b: Source, x: string)
    requires cfg.sources == [a, b] && a.name != b.name && cfg.webhook != "" && OnlySecondAnswers(fetch, a, b, x)
    ensures RunSpec(cfg, fetch, true, now, Missing)
      == RunResult(Posted(1, Content(cfg.pingRoleId, now, [x], [b.name])), Record([x]))
  {
    ScenarioDiff(cfg, fetch, a, b, x);
    DeliveredRun(cfg, fetch, now, Missing, [x], [b.name]);
    SavedFirstCode(x);
  }

  /** The same with the configured sources, the first failing and the
      second returning the page text `ABC123XYZ`. */
  lemma FailureIsolationScenario(cfg: Config, fetch: string -> Fetch, now: string)
    requires cfg.sources == ConfiguredSources && cfg.webhook != ""
    requires fetch(ConfiguredSources[0].url) == FetchFailed && fetch(ConfiguredSources[1].url) == Fetched("ABC123XYZ")
    ensures RunSpec(cfg, fetch, true, now, Missing)
      == RunResult(Posted(1, Content(cfg.pingRoleId, now, ["ABC123XYZ"], ["eldorado codes"])), Record(["ABC123XYZ"]))
  {
    var a, b := ConfiguredSources[0], ConfiguredSources[1];
    assert a.name[0] != b.name[0];
    assert ConfiguredSources == [a, b];
    UpperOfCodeChars("ABC123XYZ");
    ExtractCodesOfOneWord("ABC123XYZ");
    FailureIsolation(cfg, fetch, now, a, b, "ABC123XYZ");
  }

  lemma SingleSourceDiff(p: PerSource, name: string, x: string)
    requires p == PerSource([name], map[name := {x}])
    ensures NewCodes(p, {}) == [x]
    ensures SourcesHit(p, [x]) == [name]
  {
    assert AllCodes(p) == {x} by {
      assert x in p.codes[name];
    }
    assert AllCodes(p) - {} == {x};
    SortSingleton(x);
    assert Shares({x}, [x]);
  }

  /** One page whose text yields exactly one code, empty prior state. */
  lemma SingleCodeDiff(cfg: Config, fetch: string -> Fetch, s: Source, x: string)
    requires cfg.sources == [s]
    requires Found(fetch(s.url)) == {x}
    ensures RunNewCodes(cfg, fetch, Missing) == [x]
    ensures RunSourcesHit(cfg, fetch, Missing) == [s.name]
  {
    SingleCollect(fetch, s);
    SingleSourceDiff(Collect([s], fetch), s.name, x);
    assert Load(Missing) == {};
  }

  /** One new code with a failing webhook, or with none configured: the run
      fails and the state file stays as it was. */
  lemma WebhookFailureScenario(cfg: Config, fetch: string -> Fetch, delivered: bool, now: string, s: Source, x: string)
    requires cfg.sources == [s] && Found(fetch(s.url)) == {x}
    requires cfg.webhook == "" || !delivered
    ensures RunSpec(cfg, fetch, delivered, now, Missing)
      == RunResult(PostAborted(if cfg.webhook == "" then MissingWebhook else DeliveryFailed), Missing)
  {
    SingleCodeDiff(cfg, fetch, s, x);
  }

  lemma SingleCodeRun(cfg: Config, fetch: string -> Fetch, now: string, s: Source, x: string)
    requires cfg.sources == [s] && cfg.webhook != ""
    requires Found(fetch(s.url)) == {x}
    ensures RunSpec(cfg, fetch, true, now, Missing)
      == RunResult(Posted(1, Content(cfg.pingRoleId, now, [x], [s.name])), Record([x]))
  {
    SingleCodeDiff(cfg, fetch, s, x);
    DeliveredRun(cfg, fetch, now, Missing, [x], [s.name]);
    SavedFirstCode(x);
  }

  /** Empty prior state, one page with one code and one blacklisted word:
      the code is posted and the saved list is exactly that code. */
  lemma EndToEndScenario(cfg: Config, fetch: string -> Fetch, now: string, s: Source)
    requires cfg.sources == [s] && cfg.webhook != ""
    requires fetch(s.url) == Fetched("Use code KS2024GIFT now! Also REDEEM here.")
    ensures RunSpec(cfg, fetch, true, now, Missing)
      == RunResult(Posted(1, Content(cfg.pingRoleId, now, ["KS2024GIFT"], [s.name])), Record(["KS2024GIFT"]))
  {
    ExtractCodesExample();
    SingleCodeRun(cfg, fetch, now, s, "KS2024GIFT");
  }
}
