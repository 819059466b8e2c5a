/** internal/a2a/server.go createRun: admitting runs under a lock, with runs finishing at any moment. */
module RunAdmission {
  import opened Wrappers
  import opened RunPhases

  /** Where one createRun call stands. */
  datatype Caller =
    | Waiting            // for admitMu
    | Locked             // about to list
    | Counted(n: nat)    // below the limit, about to create
    | Uncapped           // no limit: creates without the lock
    | Leaving            // about to release admitMu
    | Done

  datatype Server = Server(runs: Runs, holder: Option<nat>, callers: map<nat, Caller>)

  const IDLE := Server(map[], None, map[])

  datatype Event =
    | Call(c: nat)
    | Lock(c: nat)
    | ListFails(c: nat)
    | ListAndCount(c: nat)
    | CreateFails(c: nat)
    | Create(c: nat, name: string)
    | Unlock(c: nat)
    | Others(runs: Runs)  // the controllers

  ghost predicate Enabled(s: Server, e: Event) {
    match e
    case Call(c) => c !in s.callers
    case Lock(c) => c in s.callers && s.callers[c].Waiting? && s.holder.None?
    case ListFails(c) => c in s.callers && s.callers[c].Locked?
    case ListAndCount(c) => c in s.callers && s.callers[c].Locked?
    case CreateFails(c) => c in s.callers && (s.callers[c].Counted? || s.callers[c].Uncapped?)
    case Create(c, name) => c in s.callers && (s.callers[c].Counted? || s.callers[c].Uncapped?) && name !in s.runs
    case Unlock(c) => c in s.callers && s.callers[c].Leaving?
    case Others(runs) => Progress(s.runs, runs)
  }

  /** `limit` is EffectiveMaxConcurrentRuns; zero or less means no limit. */
  ghost function Apply(s: Server, e: Event, limit: int): Server
    requires Enabled(s, e)
  {
    match e
    case Call(c) => s.(callers := s.callers[c := if limit > 0 then Waiting else Uncapped])
    case Lock(c) => s.(callers := s.callers[c := Locked], holder := Some(c))
    case ListFails(c) => s.(callers := s.callers[c := Leaving])
    case ListAndCount(c) =>
      var active := |Active(s.runs)|;
      s.(callers := s.callers[c := if active >= limit then Leaving else Counted(active)])
    case CreateFails(c) => s.(callers := s.callers[c := if s.callers[c].Uncapped? then Done else Leaving])
    case Create(c, name) =>
      s.(runs := s.runs[name := Run(Empty, false)],
         callers := s.callers[c := if s.callers[c].Uncapped? then Done else Leaving])
    case Unlock(c) => s.(callers := s.callers[c := Done], holder := None)
    case Others(runs) => s.(runs := runs)
  }

  ghost predicate IsRun(ss: seq<Server>, es: seq<Event>, limit: int) {
    && |ss| == |es| + 1 && ss[0] == IDLE
    && forall i :: 0 <= i < |es| ==> Enabled(ss[i], es[i]) && ss[i + 1] == Apply(ss[i], es[i], limit)
  }

  predicate Critical(c: Caller) { c.Locked? || c.Counted? || c.Leaving? }

  /** Mutual exclusion, and a count below the limit that runs can only fall behind. */
  ghost predicate Inv(s: Server, limit: int) {
    && (forall c :: c in s.callers && Critical(s.callers[c]) <==> s.holder == Some(c))
    && (forall c :: c in s.callers ==> !s.callers[c].Uncapped?)
    && (forall c :: c in s.callers && s.callers[c].Counted? ==> |Active(s.runs)| <= s.callers[c].n < limit)
    && |Active(s.runs)| <= limit
  }

  lemma ActiveAfterCreate(runs: Runs, name: string)
    requires name !in runs
    ensures |Active(runs[name := Run(Empty, false)])| == |Active(runs)| + 1
  {
    assert Active(runs[name := Run(Empty, false)]) == Active(runs) + {name};
  }

  lemma StepKeepsInv(s: Server, e: Event, limit: int)
    requires limit > 0 && Inv(s, limit) && Enabled(s, e)
    ensures Inv(Apply(s, e, limit), limit)
  {
    match e
    case Create(c, name) => ActiveAfterCreate(s.runs, name);
    case Others(runs) =>
      ProgressShrinks(s.runs, runs);
      SubsetCard(Active(runs), Active(s.runs));
    case _ =>
  }

  /** No interleaving of createRun calls and finishing runs exceeds a positive limit. */
  lemma {:induction false} CapHolds(ss: seq<Server>, es: seq<Event>, limit: int, i: nat)
    requires IsRun(ss, es, limit) && limit > 0 && i < |ss|
    ensures Inv(ss[i], limit) && |Active(ss[i].runs)| <= limit
  {
    if i > 0 {
      CapHolds(ss, es, limit, i - 1);
      StepKeepsInv(ss[i - 1], es[i - 1], limit);
    } else {
      assert Active(map[]) == {};
    }
  }

  /** A call in possession of the lock can take its next step, and has at most three to its release. */
  lemma HolderMovesOn(ss: seq<Server>, es: seq<Event>, limit: int, i: nat, c: nat)
    requires IsRun(ss, es, limit) && limit > 0 && i < |ss| && ss[i].holder == Some(c)
    ensures c in ss[i].callers
    ensures match ss[i].callers[c]
            case Locked => Enabled(ss[i], ListAndCount(c)) && Enabled(ss[i], ListFails(c))
                && ToRelease(Apply(ss[i], ListAndCount(c), limit).callers[c]) < 3
                && Apply(ss[i], ListFails(c), limit).callers[c] == Leaving
            case Counted(_) => Enabled(ss[i], CreateFails(c))
                && Apply(ss[i], CreateFails(c), limit).callers[c] == Leaving
            case Leaving => Enabled(ss[i], Unlock(c)) && Apply(ss[i], Unlock(c), limit).holder == None
            case _ => false
  {
    CapHolds(ss, es, limit, i);
  }

  function ToRelease(c: Caller): nat {
    if c.Locked? then 3 else if c.Counted? then 2 else if c.Leaving? then 1 else 0
  }

  /** A call past the count creates one more active run under the name it was given, and no other changes. */
  lemma CreateAddsRun(ss: seq<Server>, es: seq<Event>, limit: int, i: nat)
    requires IsRun(ss, es, limit) && limit > 0 && i < |es| && es[i].Create?
    ensures es[i].name !in ss[i].runs && ss[i + 1].runs.Keys == ss[i].runs.Keys + {es[i].name}
    ensures forall name :: name in ss[i].runs ==> ss[i + 1].runs[name] == ss[i].runs[name]
    ensures |Active(ss[i + 1].runs)| == |Active(ss[i].runs)| + 1 <= limit
  {
    CapHolds(ss, es, limit, i);
    CapHolds(ss, es, limit, i + 1);
    ActiveAfterCreate(ss[i].runs, es[i].name);
  }

  /** Runs come into being through a create only and change only at the hands of the controllers; whether
      a call fails or is refused makes no difference to them. */
  lemma RunsChange(ss: seq<Server>, es: seq<Event>, limit: int, i: nat)
    requires IsRun(ss, es, limit) && i < |es|
    ensures es[i].Others? ==> ss[i + 1].runs == es[i].runs && ss[i + 1].runs.Keys <= ss[i].runs.Keys
    ensures es[i].Create? ==> ss[i + 1].runs == ss[i].runs[es[i].name := Run(Empty, false)]
    ensures !es[i].Others? && !es[i].Create? ==> ss[i + 1].runs == ss[i].runs
  {
    assert Enabled(ss[i], es[i]) && ss[i + 1] == Apply(ss[i], es[i], limit);
  }

  /** A call is turned away for the limit only when the limit is exactly reached. */
  lemma RefusedOnlyAtLimit(ss: seq<Server>, es: seq<Event>, limit: int, i: nat)
    requires IsRun(ss, es, limit) && limit > 0 && i < |es| && es[i].ListAndCount?
    ensures ss[i + 1].callers[es[i].c].Leaving? <==> |Active(ss[i].runs)| == limit
  {
    CapHolds(ss, es, limit, i);
  }

  /** Without a positive limit nothing is capped: two calls make two active runs. */
  lemma UncappedWithoutLimit(limit: int)
    requires limit <= 0
    ensures exists ss: seq<Server>, es :: IsRun(ss, es, limit) && |Active(ss[|ss| - 1].runs)| == 2
  {
    var s1 := Apply(IDLE, Call(0), limit);
    var s2 := Apply(s1, Create(0, "a"), limit);
    var s3 := Apply(s2, Call(1), limit);
    var s4 := Apply(s3, Create(1, "b"), limit);
    var ss, es := [IDLE, s1, s2, s3, s4], [Call(0), Create(0, "a"), Call(1), Create(1, "b")];
    assert IsRun(ss, es, limit);
    assert Active(s4.runs) == {"a", "b"};
  }
}
