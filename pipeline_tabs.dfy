/** The stage tabs above the candidate list: one tab per stage with its count
    badge, the active-tab highlight, and the click that selects a stage. */
module PipelineTabs {
  import opened Common
  import opened CandidatesPipeline

  /** `getStageCount(stage)`: `applications.filter(a => a.stage === stage).length`. */
  function StageCount(apps: seq<App>, stage: string): nat {
    |InStage(apps, stage)|
  }

  /** The number of applications whose stage is one of `stages`. */
  function CountIn(apps: seq<App>, stages: seq<string>): nat
    decreases |apps|
  {
    if apps == [] then 0
    else (if apps[0].stage in stages then 1 else 0) + CountIn(apps[1..], stages)
  }

  /** The sum of the tab counts over `stages`. */
  function SumCounts(apps: seq<App>, stages: seq<string>): nat
    decreases |stages|
  {
    if stages == [] then 0 else StageCount(apps, stages[0]) + SumCounts(apps, stages[1..])
  }

  predicate Distinct(xs: seq<string>) {
    forall i, j :: 0 <= i < j < |xs| ==> xs[i] != xs[j]
  }

  predicate UniqueIds(apps: seq<App>) {
    forall i, j :: 0 <= i < j < |apps| ==> apps[i].id != apps[j].id
  }

  /** The count of a stage is the number of applications whose stage is
      exactly that one. */
  lemma {:induction false} StageCountExact(apps: seq<App>, stage: string)
    ensures StageCount(apps, stage) == CountIn(apps, [stage])
    decreases |apps|
  {
    if apps != [] {
      StageCountExact(apps[1..], stage);
    }
  }

  lemma {:induction false} CountInSplit(apps: seq<App>, s: string, rest: seq<string>)
    requires s !in rest
    ensures CountIn(apps, [s] + rest) == CountIn(apps, [s]) + CountIn(apps, rest)
    decreases |apps|
  {
    if apps != [] {
      CountInSplit(apps[1..], s, rest);
    }
  }

  /** Over distinct stages, the tab counts add up to the number of
      applications in one of those stages, because each has one stage. */
  lemma {:induction false} SumCountsIsCountIn(apps: seq<App>, stages: seq<string>)
    requires Distinct(stages)
    ensures SumCounts(apps, stages) == CountIn(apps, stages)
    decreases |stages|
  {
    if stages == [] {
      CountInNone(apps);
    } else {
      assert Distinct(stages[1..]);
      assert stages == [stages[0]] + stages[1..];
      SumCountsIsCountIn(apps, stages[1..]);
      StageCountExact(apps, stages[0]);
      CountInSplit(apps, stages[0], stages[1..]);
    }
  }

  lemma {:induction false} CountInNone(apps: seq<App>)
    ensures CountIn(apps, []) == 0
    decreases |apps|
  {
    if apps != [] {
      CountInNone(apps[1..]);
    }
  }

  lemma {:induction false} CountInBound(apps: seq<App>, stages: seq<string>)
    ensures CountIn(apps, stages) <= |apps|
    ensures CountIn(apps, stages) == |apps| <==> forall i :: 0 <= i < |apps| ==> apps[i].stage in stages
    decreases |apps|
  {
    if apps != [] {
      CountInBound(apps[1..], stages);
      if forall i :: 0 <= i < |apps[1..]| ==> apps[1..][i].stage in stages {
        if apps[0].stage in stages {
          forall i | 0 <= i < |apps| ensures apps[i].stage in stages {
            if i > 0 { assert apps[i] == apps[1..][i - 1]; }
          }
        }
      } else {
        var i :| 0 <= i < |apps[1..]| && apps[1..][i].stage !in stages;
        assert apps[i + 1].stage !in stages;
      }
    }
  }

  /** The five tab counts never add up to more than the number of
      applications, and add up to exactly that when every application is in
      one of the five stages. */
  lemma TabCountsCover(apps: seq<App>)
    ensures SumCounts(apps, AllStages) <= |apps|
    ensures SumCounts(apps, AllStages) == |apps| <==>
              forall i :: 0 <= i < |apps| ==> apps[i].stage in AllStages
  {
    assert Distinct(AllStages);
    SumCountsIsCountIn(apps, AllStages);
    CountInBound(apps, AllStages);
  }

  /** One rendered tab. */
  datatype Tab = Tab(stage: string, caption: Option<string>, count: nat, active: bool, badge: bool)

  /** The tab row: per stage its label, count, highlight and whether the
      count badge is drawn. */
  function Tabs(stages: seq<string>, apps: seq<App>, activeStage: string): (tabs: seq<Tab>)
    ensures |tabs| == |stages|
    ensures forall i :: 0 <= i < |stages| ==>
              && tabs[i].stage == stages[i]
              && tabs[i].caption == StageLabel(stages[i])
              && tabs[i].count == StageCount(apps, stages[i])
              && (tabs[i].active <==> stages[i] == activeStage)
              && (tabs[i].badge <==> tabs[i].count > 0)
  {
    seq(|stages|, i requires 0 <= i < |stages| =>
      var c := StageCount(apps, stages[i]);
      Tab(stages[i], StageLabel(stages[i]), c, stages[i] == activeStage, c > 0))
  }

  function ActiveTabs(tabs: seq<Tab>): nat
    decreases |tabs|
  {
    if tabs == [] then 0 else (if tabs[0].active then 1 else 0) + ActiveTabs(tabs[1..])
  }

  lemma {:induction false} ActiveTabsCount(stages: seq<string>, apps: seq<App>, activeStage: string)
    requires Distinct(stages)
    ensures ActiveTabs(Tabs(stages, apps, activeStage)) == if activeStage in stages then 1 else 0
    decreases |stages|
  {
    var tabs := Tabs(stages, apps, activeStage);
    if stages != [] {
      assert Distinct(stages[1..]);
      ActiveTabsCount(stages[1..], apps, activeStage);
      var rest := Tabs(stages[1..], apps, activeStage);
      assert tabs[1..] == rest;
      if stages[0] == activeStage {
        assert activeStage !in stages[1..];
      }
    }
  }

  /** With the five distinct stages, exactly one tab is highlighted when the
      active stage is one of them; its count is the length of the list shown
      below the tabs. */
  lemma ExactlyOneActiveTab(p: Pipeline)
    requires p.activeStage in AllStages
    ensures ActiveTabs(Tabs(AllStages, p.applications, p.activeStage)) == 1
    ensures forall i :: 0 <= i < |AllStages| && Tabs(AllStages, p.applications, p.activeStage)[i].active ==>
              Tabs(AllStages, p.applications, p.activeStage)[i].count == |p.CandidatesInActiveStage()|
  {
    assert Distinct(AllStages);
    ActiveTabsCount(AllStages, p.applications, p.activeStage);
  }

  /** Clicking tab `k` sets its stage as the active one, after which tab `k`
      and no other is highlighted. */
  method ClickTab(p: Pipeline, k: nat)
    requires k < |AllStages|
    modifies p`activeStage
    ensures forall i :: 0 <= i < |AllStages| ==>
              (Tabs(AllStages, p.applications, p.activeStage)[i].active <==> i == k)
  {
    p.SetActiveStage(AllStages[k]);
    assert Distinct(AllStages);
  }

  lemma {:induction false} WithStageAbsent(apps: seq<App>, id: int, stage: string)
    requires forall i :: 0 <= i < |apps| ==> apps[i].id != id
    ensures WithStage(apps, id, stage) == apps
  {
    var r := WithStage(apps, id, stage);
    assert forall i :: 0 <= i < |apps| ==> r[i] == apps[i];
  }

  /** A successful move of the one application at position `k` to stage
      `to` takes one from the count of its old stage, adds one to the count of
      `to`, and leaves every other count alone. */
  lemma {:induction false} MoveTransfersCount(apps: seq<App>, k: nat, to: string, stage: string)
    requires UniqueIds(apps) && k < |apps| && apps[k].stage != to
    ensures StageCount(WithStage(apps, apps[k].id, to), stage) ==
              StageCount(apps, stage) - (if stage == apps[k].stage then 1 else 0)
                                      + (if stage == to then 1 else 0)
  {
    StageCountExact(apps, stage);
    StageCountExact(WithStage(apps, apps[k].id, to), stage);
    MoveTransfersCountIn(apps, k, to, stage);
  }

  lemma {:induction false} MoveTransfersCountIn(apps: seq<App>, k: nat, to: string, stage: string)
    requires UniqueIds(apps) && k < |apps| && apps[k].stage != to
    ensures CountIn(WithStage(apps, apps[k].id, to), [stage]) ==
              CountIn(apps, [stage]) - (if stage == apps[k].stage then 1 else 0)
                                     + (if stage == to then 1 else 0)
    decreases |apps|
  {
    var id := apps[k].id;
    var w := WithStage(apps, id, to);
    var tail := WithStage(apps[1..], id, to);
    assert w[1..] == tail;
    assert CountIn(w, [stage]) == (if w[0].stage == stage then 1 else 0) + CountIn(tail, [stage]);
    assert CountIn(apps, [stage]) == (if apps[0].stage == stage then 1 else 0) + CountIn(apps[1..], [stage]);
    if k == 0 {
      assert w[0].stage == to;
      forall i | 0 <= i < |apps[1..]| ensures apps[1..][i].id != id {
        assert apps[1..][i] == apps[i + 1];
      }
      WithStageAbsent(apps[1..], id, to);
    } else {
      assert w[0] == apps[0] by {
        assert apps[0].id != id;
      }
      assert UniqueIds(apps[1..]) by {
        forall i, j | 0 <= i < j < |apps[1..]| ensures apps[1..][i].id != apps[1..][j].id {
          assert apps[1..][i] == apps[i + 1] && apps[1..][j] == apps[j + 1];
        }
      }
      assert apps[1..][k - 1] == apps[k];
      MoveTransfersCountIn(apps[1..], k - 1, to, stage);
    }
  }

}
