/** Two small plans on which the locked stage goes wrong. */
module FineExamples {
  import opened Colours
  import opened Lists
  import opened Scheduling
  import opened FineScheduling
  import opened FineSafety
  import opened FineTheorems
  import FineInvariant
  import FineEarly

  /** `u` waits for `a`. */
  ghost function PairPlan(): Plan {
    Plan(map["a" := {"u"}, "u" := {}], map["a" := Grey, "u" := Black], map["a" := 0, "u" := 1], ["a", "u"], ["a", "u"], {"a", "u"})
  }

  /** `u` waits for `a`, and `c` for `u` and `v`. */
  ghost function ForkPlan(): Plan {
    Plan(map["a" := {"u"}, "v" := {"c"}, "u" := {"c"}, "c" := {}],
         map["a" := Grey, "v" := Grey, "u" := Black, "c" := Black],
         map["a" := 0, "v" := 0, "u" := 1, "c" := 2],
         ["a", "v", "u", "c"], ["v", "a", "u", "c"], {"a", "v", "u", "c"})
  }

  /** With one worker, `u` can run twice, and the stage can end without running `u`. */
  lemma PairGoesWrong()
    ensures Prepared(PairPlan()) && !Flat(PairPlan())
    ensures exists moves :: Follow(PairPlan(), 1, moves).Reached? && !NoDup(Follow(PairPlan(), 1, moves).fine.log)
    ensures exists moves :: Follow(PairPlan(), 1, moves).Reached? && Over(Follow(PairPlan(), 1, moves).fine)
                            && !AllRan(PairPlan(), Follow(PairPlan(), 1, moves).fine)
  {
    var p := PairPlan();
    PairIsPrepared();
    hide PairPlan, Prepared, Follow, Flat, AllRan, Over;
    ExactlyOnce(p, 1);
    EveryoneRuns(p, 1);
  }

  lemma PairIsPrepared()
    ensures Prepared(PairPlan()) && !Flat(PairPlan())
  {
    var p := PairPlan();
    assert p.order[0] == "a" && p.order[1] == "u" && "u" in p.list;
    assert In(p, "a") == {} && In(p, "u") == {"a"} && Stale(p, "a") == {} && Stale(p, "u") == {"a"};
  }

  /** With four workers, `c` can start while `v` still runs, because `u` has released it twice. */
  lemma ForkGoesWrong()
    ensures Prepared(ForkPlan()) && Risky(ForkPlan())
    ensures exists moves :: Follow(ForkPlan(), 4, moves).Reached? && !Timely(ForkPlan(), Follow(ForkPlan(), 4, moves).fine.log)
  {
    var p := ForkPlan();
    ForkIsPrepared();
    ForkIsRisky();
    hide ForkPlan, Prepared, Follow, Risky, Timely;
    FineEarly.NoEarlyStart(p, 4);
  }

  lemma ForkStale()
    ensures var p := ForkPlan();
            && In(p, "a") == Stale(p, "a") == {} && In(p, "v") == Stale(p, "v") == {}
            && In(p, "u") == Stale(p, "u") == {"a"} && In(p, "c") == Stale(p, "c") == {"u", "v"}
  {}

  lemma ForkIsPrepared()
    ensures Prepared(ForkPlan())
  {
    ForkOrder();
    ForkColours();
    hide Topological, Coloured, ForkPlan, Domains;
  }

  lemma ForkOrder()
    ensures Domains(ForkPlan()) && Topological(ForkPlan()) && BlacksInOrder(ForkPlan())
  {
    var p := ForkPlan();
    ForkStale();
    hide In, Stale;
    assert p.order[0] == "a" && p.order[1] == "v" && p.order[2] == "u" && p.order[3] == "c";
    assert p.list[2] == "u" && p.list[3] == "c";
    assert p.order[..2] == ["a", "v"] && p.order[..3] == ["a", "v", "u"];
  }

  lemma ForkColours()
    ensures Domains(ForkPlan()) && Coloured(ForkPlan())
  {
    ForkList();
    ForkCounts();
    hide In, Stale, Counts, NoDup, GreysFirst, Domains, ForkPlan;
  }

  lemma ForkList()
    ensures var p := ForkPlan();
            && Domains(p) && NoDup(p.list) && GreysFirst(p.colour, p.list)
            && (forall u | u in p.out :: u in p.list <==> p.colour[u] != White)
  {
    var p := ForkPlan();
    assert p.list[0] == "v" && p.list[1] == "a" && p.list[2] == "u" && p.list[3] == "c";
  }

  lemma ForkCounts()
    ensures var p := ForkPlan();
            && Domains(p) && (forall u | u in p.order :: p.colour[u] == Black <==> Stale(p, u) != {})
            && (forall u | u in p.order && Counts(p, u) :: p.wait[u] == |Stale(p, u)|)
  {
    ForkStale();
    hide In, Stale, Counts;
  }

  lemma ForkIsRisky()
    ensures Risky(ForkPlan())
  {
    var p := ForkPlan();
    ForkStale();
    hide In, Stale;
    forall y | FineInvariant.UpTo(p, y, "u") ensures "v" !in Stale(p, y) {
      assert p.list[2] == "u";
      assert y == "u";
    }
    assert Overtakes(p, "c", "v", "u");
  }
}
