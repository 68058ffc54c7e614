/** What every run of activate and dynamic actions keeps: where the countdowns
    of the rule nodes and the global counter come from, exactly which actions
    keep the flags in step with the countdowns, and when the two tests made
    before a dynamic rule is evaluated let through only active nodes. */
module DynamicLaws {
  import opened DynamicRules

  datatype Act = Activate(o: nat) | Dynamic(o: nat)

  predicate WellBuilt(sys: System) {
    && |sys.owner| == |sys.count|
    && forall i :: 0 <= i < |sys.owner| ==> sys.owner[i] < sys.rules
  }

  predicate Runnable(sys: System, acts: seq<Act>) {
    WellBuilt(sys) && forall k :: 0 <= k < |acts| ==> acts[k].o < |sys.owner|
  }

  /** Nothing was activated yet. */
  function Initial(sys: System): (s: Dyn)
    requires WellBuilt(sys)
    ensures Fits(sys, s)
  {
    Dyn(seq(|sys.owner|, _ => Node(false, 0)), seq(sys.rules, _ => Node(false, 0)), 0)
  }

  function Step(sys: System, s: Dyn, act: Act): (r: Dyn)
    requires Fits(sys, s) && act.o < |s.otns|
    ensures Fits(sys, r)
  {
    match act
    case Activate(o) => Activated(sys, s, o)
    case Dynamic(o) => Counted(sys, s, o)
  }

  function After(sys: System, acts: seq<Act>): (s: Dyn)
    requires Runnable(sys, acts)
    ensures Fits(sys, s)
  {
    if acts == [] then Initial(sys)
    else Step(sys, After(sys, acts[..|acts| - 1]), acts[|acts| - 1])
  }

  // ---- Sums over the option nodes ----

  /** The countdowns of those of the first `n` option nodes that rule node `j` owns. */
  function Owned(owner: seq<nat>, otns: seq<Node>, j: nat, n: nat): int
    requires n <= |otns| == |owner|
  {
    if n == 0 then 0
    else Owned(owner, otns, j, n - 1) + (if owner[n - 1] == j then otns[n - 1].countdown else 0)
  }

  /** How many of the first `n` nodes are active. */
  function Active(otns: seq<Node>, n: nat): (r: nat)
    requires n <= |otns|
  {
    if n == 0 then 0 else Active(otns, n - 1) + (if otns[n - 1].active then 1 else 0)
  }

  lemma {:induction false} OwnedUpdate(owner: seq<nat>, otns: seq<Node>, j: nat, n: nat, o: nat, v: Node)
    requires n <= |otns| == |owner| && o < |otns|
    ensures Owned(owner, otns[o := v], j, n) ==
              Owned(owner, otns, j, n) + (if o < n && owner[o] == j then v.countdown - otns[o].countdown else 0)
  {
    if n > 0 {
      OwnedUpdate(owner, otns, j, n - 1, o, v);
    }
  }

  lemma {:induction false} ActiveUpdate(otns: seq<Node>, n: nat, o: nat, v: Node)
    requires n <= |otns| && o < |otns|
    ensures Active(otns[o := v], n) ==
              Active(otns, n) + (if o < n then (if v.active then 1 else 0) - (if otns[o].active then 1 else 0) else 0)
  {
    if n > 0 {
      ActiveUpdate(otns, n - 1, o, v);
    }
  }

  // ---- Conservation, for every run ----

  /** What was left on the countdowns that activations of nodes of `j` overwrote. */
  function Overwritten(sys: System, acts: seq<Act>, j: nat): int
    requires Runnable(sys, acts)
  {
    if acts == [] then 0
    else
      var before, last := acts[..|acts| - 1], acts[|acts| - 1];
      Overwritten(sys, before, j) +
      (if last.Activate? && sys.owner[last.o] == j then After(sys, before).otns[last.o].countdown else 0)
  }

  /** How often a node was activated that was active already. */
  function Again(sys: System, acts: seq<Act>): nat
    requires Runnable(sys, acts)
  {
    if acts == [] then 0
    else
      var before, last := acts[..|acts| - 1], acts[|acts| - 1];
      Again(sys, before) + (if last.Activate? && After(sys, before).otns[last.o].active then 1 else 0)
  }

  /** How often a dynamic action ran on a node that was neither active nor had more than one to go. */
  function Idle(sys: System, acts: seq<Act>): nat
    requires Runnable(sys, acts)
  {
    if acts == [] then 0
    else
      var before, last := acts[..|acts| - 1], acts[|acts| - 1];
      var node := After(sys, before).otns[last.o];
      Idle(sys, before) + (if last.Dynamic? && !node.active && node.countdown <= 1 then 1 else 0)
  }

  lemma {:induction false} InitialSums(sys: System, j: nat, n: nat)
    requires WellBuilt(sys) && n <= |sys.owner|
    ensures Owned(sys.owner, Initial(sys).otns, j, n) == 0 && Active(Initial(sys).otns, n) == 0
  {
    if n > 0 {
      InitialSums(sys, j, n - 1);
    }
  }

  /** Whatever actions ran: the countdown of a rule node is the sum of those of
      its option nodes and of all that activations overwrote. */
  lemma {:induction false} CountdownsBalance(sys: System, acts: seq<Act>, j: nat)
    requires Runnable(sys, acts) && j < sys.rules
    ensures var s := After(sys, acts);
            s.rtns[j].countdown == Owned(sys.owner, s.otns, j, |s.otns|) + Overwritten(sys, acts, j)
  {
    if acts == [] {
      InitialSums(sys, j, |sys.owner|);
    } else {
      var before, last := acts[..|acts| - 1], acts[|acts| - 1];
      var s := After(sys, before);
      CountdownsBalance(sys, before, j);
      var v := if last.Activate? then Node(true, sys.count[last.o]) else Tick(s.otns[last.o]);
      OwnedUpdate(sys.owner, s.otns, j, |s.otns|, last.o, v);
    }
  }

  /** Whatever actions ran: the global counter is the number of active option
      nodes, and one more for each activation of an active one, and one less for
      each idle dynamic action. */
  lemma {:induction false} CounterBalances(sys: System, acts: seq<Act>)
    requires Runnable(sys, acts)
    ensures var s := After(sys, acts);
            s.activeNodes == Active(s.otns, |s.otns|) + Again(sys, acts) - Idle(sys, acts)
  {
    if acts == [] {
      InitialSums(sys, 0, |sys.owner|);
    } else {
      var before, last := acts[..|acts| - 1], acts[|acts| - 1];
      var s := After(sys, before);
      CounterBalances(sys, before);
      var v := if last.Activate? then Node(true, sys.count[last.o]) else Tick(s.otns[last.o]);
      ActiveUpdate(s.otns, |s.otns|, last.o, v);
    }
  }

  // ---- Which actions keep the flags right ----

  /** A flag is up exactly while there is something to count. */
  predicate Sound(n: Node) {
    n.countdown >= 0 && (n.active <==> n.countdown > 0)
  }

  predicate Healthy(s: Dyn) {
    && (forall i :: 0 <= i < |s.otns| ==> Sound(s.otns[i]))
    && (forall j :: 0 <= j < |s.rtns| ==> Sound(s.rtns[j]))
  }

  /** A positive count is activated, and only active nodes are counted down. */
  predicate Proper(sys: System, s: Dyn, act: Act)
    requires Fits(sys, s) && act.o < |s.otns|
  {
    match act
    case Activate(o) => sys.count[o] > 0
    case Dynamic(o) => s.otns[o].active
  }

  predicate ProperAt(sys: System, acts: seq<Act>, k: nat)
    requires Runnable(sys, acts) && k < |acts|
  {
    Proper(sys, After(sys, acts[..k]), acts[k])
  }

  predicate AllProper(sys: System, acts: seq<Act>)
    requires Runnable(sys, acts)
  {
    forall k :: 0 <= k < |acts| ==> ProperAt(sys, acts, k)
  }

  predicate AlwaysHealthy(sys: System, acts: seq<Act>)
    requires Runnable(sys, acts)
  {
    forall k :: 0 <= k <= |acts| ==> var before := acts[..k]; Healthy(After(sys, before))
  }

  /** A rule node has at least as much to count as each of its option nodes. */
  lemma {:induction false} OwnedCovers(owner: seq<nat>, otns: seq<Node>, j: nat, n: nat, o: nat)
    requires n <= |otns| == |owner| && forall i :: 0 <= i < |otns| ==> otns[i].countdown >= 0
    ensures Owned(owner, otns, j, n) >= 0
    ensures o < n && owner[o] == j ==> Owned(owner, otns, j, n) >= otns[o].countdown
  {
    if n > 0 {
      OwnedCovers(owner, otns, j, n - 1, o);
    }
  }

  lemma {:induction false} OverwrittenPositive(sys: System, acts: seq<Act>, j: nat)
    requires Runnable(sys, acts) && AlwaysHealthy(sys, acts)
    ensures Overwritten(sys, acts, j) >= 0
  {
    if acts != [] {
      var before := acts[..|acts| - 1];
      HealthyBefore(sys, acts, |before|);
      assert Healthy(After(sys, before));
      OverwrittenPositive(sys, before, j);
    }
  }

  lemma HealthyBefore(sys: System, acts: seq<Act>, k: nat)
    requires Runnable(sys, acts) && AlwaysHealthy(sys, acts) && k <= |acts|
    ensures Runnable(sys, acts[..k]) && AlwaysHealthy(sys, acts[..k]) && Healthy(After(sys, acts[..k]))
  {
    forall i | 0 <= i <= k ensures var before := acts[..k][..i]; Healthy(After(sys, before)) {
      assert acts[..k][..i] == acts[..i];
    }
  }

  /** One action from a healthy state: the state stays healthy exactly when the action is proper. */
  lemma {:induction false} StepHealthyIff(sys: System, acts: seq<Act>, act: Act)
    requires Runnable(sys, acts) && AlwaysHealthy(sys, acts) && act.o < |sys.owner|
    ensures Healthy(Step(sys, After(sys, acts), act)) <==> Proper(sys, After(sys, acts), act)
  {
    HealthyBefore(sys, acts, |acts|);
    assert acts[..|acts|] == acts;
    var s, j := After(sys, acts), sys.owner[act.o];
    CountdownsBalance(sys, acts, j);
    OwnedCovers(sys.owner, s.otns, j, |s.otns|, act.o);
    OverwrittenPositive(sys, acts, j);
    assert Step(sys, s, act).rtns[j].countdown ==
             s.rtns[j].countdown + (if act.Activate? then sys.count[act.o] else -1);
    var r := Step(sys, s, act);
    if Proper(sys, s, act) {
      assert Sound(r.otns[act.o]) && Sound(r.rtns[j]);
    } else {
      assert !Sound(r.otns[act.o]);
    }
  }

  /** Whether a run stays healthy is a matter of its prefix and its last state. */
  lemma HealthyPrefix(sys: System, acts: seq<Act>)
    requires Runnable(sys, acts) && acts != []
    ensures var before := acts[..|acts| - 1];
            && Runnable(sys, before)
            && (AlwaysHealthy(sys, acts) <==> AlwaysHealthy(sys, before) && Healthy(After(sys, acts)))
  {
    var n := |acts| - 1;
    var before := acts[..n];
    assert forall k :: 0 <= k <= n ==> before[..k] == acts[..k];
    assert acts[..n + 1] == acts;
  }

  /** Whether all actions are proper is a matter of the prefix and the last one. */
  lemma ProperPrefix(sys: System, acts: seq<Act>)
    requires Runnable(sys, acts) && acts != []
    ensures var before, last := acts[..|acts| - 1], acts[|acts| - 1];
            && Runnable(sys, before)
            && (AllProper(sys, acts) <==> AllProper(sys, before) && Proper(sys, After(sys, before), last))
  {
    var n := |acts| - 1;
    var before := acts[..n];
    forall k | 0 <= k < n ensures ProperAt(sys, before, k) == ProperAt(sys, acts, k) {
      assert before[..k] == acts[..k];
    }
    assert ProperAt(sys, acts, n) == Proper(sys, After(sys, before), acts[n]);
  }

  lemma HealthyAtFirst(sys: System, acts: seq<Act>)
    requires Runnable(sys, acts) && acts == []
    ensures AlwaysHealthy(sys, acts) && AllProper(sys, acts)
  {
    assert acts[..0] == [];
  }

  /** A whole run stays healthy exactly when all of its actions are proper. */
  lemma {:induction false} HealthyIffProper(sys: System, acts: seq<Act>)
    requires Runnable(sys, acts)
    ensures AlwaysHealthy(sys, acts) <==> AllProper(sys, acts)
  {
    if acts == [] {
      HealthyAtFirst(sys, acts);
    } else {
      HealthyPrefix(sys, acts);
      ProperPrefix(sys, acts);
      var before, last := acts[..|acts| - 1], acts[|acts| - 1];
      HealthyIffProper(sys, before);
      if AlwaysHealthy(sys, before) {
        StepHealthyIff(sys, before, last);
      }
    }
  }

  // ---- What a healthy run means ----

  lemma {:induction false} OwnedIsActive(owner: seq<nat>, otns: seq<Node>, j: nat, n: nat)
    requires n <= |otns| == |owner| && forall i :: 0 <= i < |otns| ==> Sound(otns[i])
    ensures Owned(owner, otns, j, n) >= 0
    ensures Owned(owner, otns, j, n) > 0 <==> exists i :: 0 <= i < n && owner[i] == j && otns[i].active
  {
    if n > 0 {
      OwnedIsActive(owner, otns, j, n - 1);
    }
  }

  /** After proper actions a rule node is active exactly when one of its option
      nodes is, or an activation overwrote something; and no dynamic action was idle. */
  lemma RuleActiveIff(sys: System, acts: seq<Act>, j: nat)
    requires Runnable(sys, acts) && AllProper(sys, acts) && j < sys.rules
    ensures var s := After(sys, acts);
            s.rtns[j].active <==>
              || (exists i :: 0 <= i < |s.otns| && sys.owner[i] == j && s.otns[i].active)
              || Overwritten(sys, acts, j) > 0
    ensures Overwritten(sys, acts, j) >= 0
  {
    HealthyIffProper(sys, acts);
    HealthyBefore(sys, acts, |acts|);
    assert acts[..|acts|] == acts;
    var s := After(sys, acts);
    CountdownsBalance(sys, acts, j);
    OverwrittenPositive(sys, acts, j);
    OwnedIsActive(sys.owner, s.otns, j, |s.otns|);
  }

  lemma {:induction false} NeverIdle(sys: System, acts: seq<Act>)
    requires Runnable(sys, acts) && AllProper(sys, acts)
    ensures Idle(sys, acts) == 0
  {
    if acts != [] {
      ProperPrefix(sys, acts);
      NeverIdle(sys, acts[..|acts| - 1]);
    }
  }

  /** After proper actions the counter is never below the number of active nodes,
      and above it by the number of activations of active ones. */
  lemma CounterCountsActive(sys: System, acts: seq<Act>)
    requires Runnable(sys, acts) && AllProper(sys, acts)
    ensures var s := After(sys, acts); s.activeNodes == Active(s.otns, |s.otns|) + Again(sys, acts)
  {
    CounterBalances(sys, acts);
    NeverIdle(sys, acts);
  }

  // ---- The two tests before a dynamic rule is evaluated ----

  /** The counter is not zero and the rule node is active. */
  predicate Gate(sys: System, s: Dyn, o: nat)
    requires Fits(sys, s) && o < |s.otns|
  {
    s.activeNodes != 0 && s.rtns[sys.owner[o]].active
  }

  /** No dynamic action in the run went past a closed gate. */
  predicate AllGated(sys: System, acts: seq<Act>)
    requires Runnable(sys, acts)
  {
    forall k :: 0 <= k < |acts| && acts[k].Dynamic? ==>
      var before := acts[..k]; Gate(sys, After(sys, before), acts[k].o)
  }

  lemma {:induction false} ActiveSome(otns: seq<Node>, n: nat, o: nat)
    requires o < n <= |otns| && otns[o].active
    ensures Active(otns, n) > 0
  {
    if o < n - 1 {
      ActiveSome(otns, n - 1, o);
    }
  }

  /** After proper actions the gate is open for every active node. It is also
      open for an inactive one exactly when a sibling is active or something was
      overwritten, and the counter is not zero. */
  lemma GateIff(sys: System, acts: seq<Act>, o: nat)
    requires Runnable(sys, acts) && AllProper(sys, acts) && o < |sys.owner|
    ensures var s := After(sys, acts);
            Gate(sys, s, o) <==>
              || s.otns[o].active
              || (exists i :: 0 <= i < |s.otns| && sys.owner[i] == sys.owner[o] && s.otns[i].active)
              || (Overwritten(sys, acts, sys.owner[o]) > 0 && s.activeNodes > 0)
  {
    var s := After(sys, acts);
    RuleActiveIff(sys, acts, sys.owner[o]);
    CounterCountsActive(sys, acts);
    forall i | 0 <= i < |s.otns| && s.otns[i].active ensures Active(s.otns, |s.otns|) > 0 {
      ActiveSome(s.otns, |s.otns|, i);
    }
  }

  /** One option node for each rule node. */
  predicate OneEach(sys: System) {
    forall i, k :: 0 <= i < k < |sys.owner| ==> sys.owner[i] != sys.owner[k]
  }

  /** Only positive counts are activated, and none while its node is active. */
  predicate FreshActivations(sys: System, acts: seq<Act>)
    requires Runnable(sys, acts)
  {
    forall k :: 0 <= k < |acts| && acts[k].Activate? ==>
      var before := acts[..k];
      sys.count[acts[k].o] > 0 && !After(sys, before).otns[acts[k].o].active
  }

  lemma GatedPrefix(sys: System, acts: seq<Act>)
    requires Runnable(sys, acts) && AllGated(sys, acts) && FreshActivations(sys, acts) && acts != []
    ensures var before, last := acts[..|acts| - 1], acts[|acts| - 1];
            && Runnable(sys, before) && AllGated(sys, before) && FreshActivations(sys, before)
            && (last.Dynamic? ==> Gate(sys, After(sys, before), last.o))
            && (last.Activate? ==> sys.count[last.o] > 0 && !After(sys, before).otns[last.o].active)
  {
    var n := |acts| - 1;
    var before := acts[..n];
    assert forall k :: 0 <= k <= n ==> before[..k] == acts[..k];
  }

  lemma {:induction false} FreshOverwritesNothing(sys: System, acts: seq<Act>, j: nat)
    requires Runnable(sys, acts) && AllGated(sys, acts) && FreshActivations(sys, acts) && AllProper(sys, acts)
    ensures Overwritten(sys, acts, j) == 0 && Again(sys, acts) == 0
  {
    if acts != [] {
      var before := acts[..|acts| - 1];
      GatedPrefix(sys, acts);
      ProperPrefix(sys, acts);
      FreshOverwritesNothing(sys, before, j);
      HealthyIffProper(sys, before);
      HealthyBefore(sys, before, |before|);
      assert before[..|before|] == before;
      assert Sound(After(sys, before).otns[acts[|acts| - 1].o]);
    }
  }

  /** With one option node for each rule node, and no activation of an active
      node, the two tests suffice: they let through exactly the active nodes, all
      flags stay right, and the counter is the number of active nodes. */
  lemma {:induction false} GateSuffices(sys: System, acts: seq<Act>)
    requires Runnable(sys, acts) && OneEach(sys)
    requires AllGated(sys, acts) && FreshActivations(sys, acts)
    ensures AllProper(sys, acts) && Healthy(After(sys, acts))
    ensures var s := After(sys, acts); s.activeNodes == Active(s.otns, |s.otns|)
    ensures forall o :: 0 <= o < |sys.owner| ==> (Gate(sys, After(sys, acts), o) <==> After(sys, acts).otns[o].active)
  {
    if acts != [] {
      var before, last := acts[..|acts| - 1], acts[|acts| - 1];
      GatedPrefix(sys, acts);
      GateSuffices(sys, before);
      ProperPrefix(sys, acts);
    }
    HealthyIffProper(sys, acts);
    HealthyBefore(sys, acts, |acts|);
    assert acts[..|acts|] == acts;
    FreshOverwritesNothing(sys, acts, 0);
    CounterCountsActive(sys, acts);
    forall o | 0 <= o < |sys.owner|
      ensures Gate(sys, After(sys, acts), o) <==> After(sys, acts).otns[o].active
    {
      FreshOverwritesNothing(sys, acts, sys.owner[o]);
      GateIff(sys, acts, o);
    }
  }

  // ---- Neither condition can be dropped ----

  /** One action more, past the gate: what it does to a run, and to the two tests of it. */
  lemma OneMore(sys: System, before: seq<Act>, act: Act, s: Dyn)
    requires Runnable(sys, before) && act.o < |sys.owner| && s == After(sys, before)
    requires AllGated(sys, before) && (act.Dynamic? ==> Gate(sys, s, act.o))
    ensures var acts := before + [act];
            && Runnable(sys, acts) && After(sys, acts) == Step(sys, s, act) && AllGated(sys, acts)
            && (AllProper(sys, before) && Proper(sys, s, act) ==> AllProper(sys, acts))
            && (FreshActivations(sys, before) && (act.Activate? ==> sys.count[act.o] > 0 && !s.otns[act.o].active) ==>
                  FreshActivations(sys, acts))
  {
    var acts, n := before + [act], |before|;
    assert acts[..n] == before;
    assert forall k :: 0 <= k < n ==> before[..k] == acts[..k];
    assert forall k :: 0 <= k < n ==> ProperAt(sys, before, k) == ProperAt(sys, acts, k);
  }

  /** Wherever two option nodes share a rule node: the gate lets the inactive
      one through, and then shuts off the active one, since the counter is zero. */
  lemma SharedRuleFails(sys: System, a: nat, b: nat)
    requires WellBuilt(sys) && a < |sys.owner| && b < |sys.owner|
    requires a != b && sys.owner[a] == sys.owner[b] && sys.count[a] > 0
    ensures var acts := [Activate(a), Dynamic(b)];
            && Runnable(sys, acts) && AllGated(sys, acts) && FreshActivations(sys, acts)
            && After(sys, acts).otns[a].active && !Gate(sys, After(sys, acts), a)
  {
    var acts := [Activate(a), Dynamic(b)];
    OneMore(sys, [], Activate(a), Initial(sys));
    assert [] + [Activate(a)] == [Activate(a)];
    OneMore(sys, [Activate(a)], Dynamic(b), Activated(sys, Initial(sys), a));
    assert [Activate(a)] + [Dynamic(b)] == acts;
  }

  /** Activated twice, then counted down `k` times. */
  function TwiceThenDown(o: nat, k: nat): (acts: seq<Act>)
    ensures |acts| == k + 2 && forall i :: 0 <= i < |acts| ==> acts[i].o == o
  {
    if k == 0 then [Activate(o), Activate(o)] else TwiceThenDown(o, k - 1) + [Dynamic(o)]
  }

  lemma TwiceAdds(sys: System, o: nat, s: Dyn)
    requires WellBuilt(sys) && o < |sys.owner|
    requires s == Activated(sys, Activated(sys, Initial(sys), o), o)
    ensures s.activeNodes == 2 && s.otns[o] == Node(true, sys.count[o])
    ensures s.rtns[sys.owner[o]] == Node(true, 2 * sys.count[o])
  {
    var s1 := Activated(sys, Initial(sys), o);
    assert s1.rtns[sys.owner[o]] == Node(true, sys.count[o]);
  }

  lemma TwiceActivated(sys: System, o: nat, acts: seq<Act>)
    requires WellBuilt(sys) && o < |sys.owner| && sys.count[o] > 0 && acts == TwiceThenDown(o, 0)
    ensures AllGated(sys, acts) && AllProper(sys, acts)
    ensures var s, c := After(sys, acts), sys.count[o];
            s.activeNodes == 2 && s.otns[o] == Node(true, c) && s.rtns[sys.owner[o]] == Node(true, 2 * c)
  {
    HealthyAtFirst(sys, []);
    OneMore(sys, [], Activate(o), Initial(sys));
    var s := Activated(sys, Initial(sys), o);
    assert [] + [Activate(o)] == [Activate(o)];
    OneMore(sys, [Activate(o)], Activate(o), s);
    assert [Activate(o)] + [Activate(o)] == acts;
    TwiceAdds(sys, o, After(sys, acts));
  }

  /** The option node runs out after its count, its rule node after twice that. */
  lemma {:induction false} CountsDown(sys: System, o: nat, k: nat, acts: seq<Act>)
    requires WellBuilt(sys) && o < |sys.owner| && 0 < sys.count[o] && k <= sys.count[o]
    requires acts == TwiceThenDown(o, k)
    ensures AllGated(sys, acts) && AllProper(sys, acts)
    ensures var s, c := After(sys, acts), sys.count[o];
            && s.activeNodes == (if k < c then 2 else 1)
            && s.otns[o] == Node(k < c, c - k) && s.rtns[sys.owner[o]] == Node(true, 2 * c - k)
    decreases k
  {
    if k == 0 {
      TwiceActivated(sys, o, acts);
    } else {
      var before := TwiceThenDown(o, k - 1);
      CountsDown(sys, o, k - 1, before);
      OneMore(sys, before, Dynamic(o), After(sys, before));
    }
  }

  /** Any option node with a positive count, activated again while active: its
      rule node outlives it, so after proper actions only, none of which met a
      closed gate, the gate is open for the inactive node. */
  lemma SecondActivationFails(sys: System, o: nat)
    requires WellBuilt(sys) && o < |sys.owner| && sys.count[o] > 0
    ensures var acts := TwiceThenDown(o, sys.count[o]);
            && AllGated(sys, acts) && AllProper(sys, acts)
            && !After(sys, acts).otns[o].active && Gate(sys, After(sys, acts), o)
  {
    CountsDown(sys, o, sys.count[o], TwiceThenDown(o, sys.count[o]));
  }
}
