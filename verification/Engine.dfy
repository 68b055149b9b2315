/** The engine object: its maps of services and patterns, and the OBI configuration it last started. */
module Engine {
  import opened Base
  import opened Patterns
  import opened Registry

  /** A service as stored; its providers are a list without repetition, in no particular order. */
  datatype Entry = Entry(seen: Observation, status: Status, lastSeen: int, providers: seq<string>)

  function SetOf(xs: seq<string>): set<string> {
    set x | x in xs
  }

  function Abstract(e: Entry): Service {
    Service(e.seen, e.status, e.lastSeen, SetOf(e.providers))
  }

  lemma SetOfSnoc(xs: seq<string>, p: string)
    ensures SetOf(xs + [p]) == SetOf(xs) + {p}
    ensures SetOf([p]) == {p}
  {
  }

  lemma {:induction false} CountDistinct(xs: seq<string>)
    requires Distinct(xs)
    ensures |SetOf(xs)| == |xs|
  {
    if xs != [] {
      var front, last := xs[..|xs| - 1], xs[|xs| - 1];
      CountDistinct(front);
      assert SetOf(xs) == SetOf(front) + {last} && last !in SetOf(front);
    }
  }

  /** Merging one provider into a list without repetition changes its length exactly when the provider is new. */
  lemma MergeGrowsIff(xs: seq<string>, merged: seq<string>, p: string)
    requires Distinct(xs) && Distinct(merged) && SetOf(merged) == SetOf(xs) + {p}
    ensures |merged| != |xs| <==> p !in xs
  {
    CountDistinct(xs);
    CountDistinct(merged);
    if p in xs {
      assert SetOf(xs) + {p} == SetOf(xs);
    }
  }

  /** mergeProviders: through a set, and out of it in whatever order it is walked. */
  method MergeProviders(existing: seq<string>, incoming: seq<string>) returns (merged: seq<string>)
    ensures Distinct(merged) && SetOf(merged) == SetOf(existing) + SetOf(incoming)
  {
    var all: set<string> := {};
    for i := 0 to |existing|
      invariant all == SetOf(existing[..i])
    {
      all := all + {existing[i]};
    }
    assert existing[..|existing|] == existing;
    for i := 0 to |incoming|
      invariant all == SetOf(existing) + SetOf(incoming[..i])
    {
      all := all + {incoming[i]};
    }
    assert incoming[..|incoming|] == incoming;
    merged := [];
    var todo := all;
    while todo != {}
      invariant todo <= all && Distinct(merged) && SetOf(merged) == all - todo
      decreases todo
    {
      var p :| p in todo;
      todo := todo - {p};
      SetOfSnoc(merged, p);
      merged := merged + [p];
    }
  }

  class Engine {
    const derive: Derivation
    const onlyContainers: bool
    var services: map<string, Entry>
    var patterns: map<string, Pattern>
    var obi: Option<ObiConfig>
    var settings: string
    var pending: multiset<ObiConfig>

    constructor (mode: Mode, settings: string)
      ensures Valid() && View() == Empty(mode, settings)
    {
      derive, onlyContainers := Empty(mode, settings).derive, mode == Docker;
      this.settings := settings;
      services, patterns, obi, pending := map[], map[], None, multiset{};
    }

    ghost predicate Valid()
      reads this
    {
      forall id | id in services :: Distinct(services[id].providers)
    }

    ghost function Services(): map<string, Service>
      reads this
    {
      map id | id in services :: Abstract(services[id])
    }

    ghost function View(): State
      reads this
    {
      State(derive, onlyContainers, Services(), patterns, obi, settings, pending)
    }

    /** Storing one entry changes one service of the view. */
    lemma Stored(before: map<string, Entry>, id: string, e: Entry)
      requires services == before[id := e]
      ensures Services() == (map k | k in before :: Abstract(before[k]))[id := Abstract(e)]
    {
    }

    /** enabledProvidersForPatterns. */
    method EnabledProvidersForPatterns() returns (enabled: set<string>)
      ensures enabled == EnabledProviders(View())
    {
      enabled := {};
      var todo := patterns.Keys;
      while todo != {}
        invariant todo <= patterns.Keys
        invariant enabled == set id, p | id in patterns.Keys - todo && id in services && p in services[id].providers :: p
        decreases todo
      {
        var id :| id in todo;
        ghost var before := enabled;
        todo := todo - {id};
        if id in services {
          var providers := services[id].providers;
          for i := 0 to |providers|
            invariant enabled == before + SetOf(providers[..i])
          {
            enabled := enabled + {providers[i]};
          }
          assert providers[..|providers|] == providers;
        }
      }
      forall p ensures p in enabled <==> p in EnabledProviders(View()) {
        if p in enabled {
          var id :| id in patterns && id in services && p in services[id].providers;
          assert p in View().services[id].providers;
        }
        if p in EnabledProviders(View()) {
          var id :| id in View().patterns && id in View().services && p in View().services[id].providers;
          assert id in patterns.Keys - todo && p in services[id].providers;
        }
      }
    }

    /** rebuildOBI. */
    method RebuildObi(ok: bool) returns (error: bool)
      modifies this`obi
      ensures View() == Rebuilt(old(View()), ok) && error == !ok
    {
      var entries: map<string, Pattern> := map[];
      var todo := patterns.Keys;
      while todo != {}
        invariant todo <= patterns.Keys
        invariant entries == map id | id in patterns.Keys - todo :: Selector(patterns[id], onlyContainers)
        decreases todo
      {
        var id :| id in todo;
        todo := todo - {id};
        var entry := patterns[id];
        if onlyContainers && !entry.containersOnly {
          entry := entry.(containersOnly := true);
        }
        entries := entries[id := entry];
      }
      var providers := EnabledProvidersForPatterns();
      var config := ObiConfig(entries, providers, settings);
      assert config == ConfigOf(View());
      obi := None;
      if ok {
        obi := Some(config);
      }
      error := !ok;
    }

    method InstrumentService(id: string, ok: bool) returns (error: bool)
      requires Valid()
      modifies this
      ensures Valid() && View() == Step(old(View()), Instrument(id, ok))
      ensures error <==> id !in old(services) || (id !in old(patterns) && !ok)
    {
      if id !in services {
        return true;
      }
      if id in patterns {
        return false;
      }
      ghost var before := patterns;
      patterns := patterns[id := derive(id, services[id].seen)];
      error := RebuildObi(ok);
      if error {
        patterns := patterns - {id};
        assert patterns == before - {id};
        return;
      }
      ghost var known := services;
      services := services[id := services[id].(status := Instrumented)];
      Stored(known, id, services[id]);
    }

    method UninstrumentService(id: string, ok: bool) returns (error: bool)
      requires Valid()
      modifies this
      ensures Valid() && View() == Step(old(View()), Uninstrument(id, ok))
      ensures error <==> id !in old(services) || (old(patterns) - {id} != map[] && !ok)
    {
      if id !in services {
        return true;
      }
      var oldPattern := if id in patterns then patterns[id] else NO_PATTERN;
      patterns := patterns - {id};
      if patterns == map[] {
        obi := None;
        error := false;
      } else {
        error := RebuildObi(ok);
      }
      if error {
        patterns := patterns[id := oldPattern];
        return;
      }
      ghost var known := services;
      services := services[id := services[id].(status := Discovered)];
      Stored(known, id, services[id]);
    }

    /** handleLLMEvent, for an event whose workload has been identified. */
    method HandleEvent(id: string, seen: Observation, provider: string, now: int, ok: bool)
      requires Valid()
      modifies this
      ensures Valid() && View() == Step(old(View()), Observe(id, seen, provider, now, ok))
    {
      if id in services {
        var existing := services[id];
        var previousCount := |existing.providers|;
        var merged := MergeProviders(existing.providers, [provider]);
        SetOfSnoc([], provider);
        MergeGrowsIff(existing.providers, merged, provider);
        existing := existing.(seen := seen, lastSeen := now, providers := merged);
        services := services[id := existing];
        Stored(old(services), id, existing);
        if existing.status == Instrumented {
          var providersChanged := |existing.providers| != previousCount;
          var nextPattern := derive(id, existing.seen);
          if id !in patterns || patterns[id] != nextPattern || providersChanged {
            patterns := patterns[id := nextPattern];
            var _ := RebuildObi(ok);
          }
        }
        return;
      }
      services := services[id := Entry(seen, Discovered, now, [provider])];
      Stored(old(services), id, services[id]);
      SetOfSnoc([], provider);
    }

    /** One tick of pruneStaleServices. */
    method PruneStaleServices(cutoff: int)
      requires Valid()
      modifies this`services
      ensures Valid() && View() == Step(old(View()), Prune(cutoff))
    {
      ghost var stale := Stale(View(), cutoff);
      var todo := services.Keys;
      while todo != {}
        invariant todo <= old(services).Keys
        invariant services == old(services) - (stale - todo)
        decreases todo
      {
        var id :| id in todo;
        todo := todo - {id};
        if services[id].lastSeen < cutoff && services[id].status != Instrumented {
          services := services - {id};
        }
      }
    }

    /** UpdateExportConfig and UpdateCustomHosts: when what OBI reads of the settings changes, a running OBI is
        rebuilt. */
    method Configure(changed: string, ok: bool)
      requires Valid()
      modifies this
      ensures Valid() && View() == Step(old(View()), Registry.Configure(changed, ok))
    {
      var obiChanged := changed != settings;
      settings := changed;
      if obiChanged && obi.Some? {
        var _ := RebuildObi(ok);
      }
    }

    /** What the supervisor does meanwhile: OBI exits unexpectedly. */
    method ObiExits()
      modifies this`obi, this`pending
      ensures View() == Step(old(View()), Registry.ObiExits)
    {
      if obi.Some? {
        pending := pending + multiset{obi.value};
        obi := None;
      }
    }

    /** ... and a backoff goroutine wakes up, looks whether OBI runs, and starts it. */
    method BackoffWakes(config: ObiConfig, ok: bool, over: bool)
      modifies this`obi, this`pending
      ensures View() == Step(old(View()), Registry.BackoffWakes(config, ok, over))
    {
      if config !in pending {
        return;
      }
      if obi.Some? {
        pending := pending - multiset{config};
        return;
      }
      if ok {
        obi := Some(config);
        pending := pending - multiset{config};
        return;
      }
      if over {
        pending := pending - multiset{config};
      }
    }
  }
}
