/** Activate and dynamic rules: an activation starts the countdown of an option
    node and adds to the one of its rule node; every dynamic action counts both
    down and shuts down what has run out. */
module DynamicRules {

  /** The fields that the actions move. */
  datatype Node = Node(active: bool, countdown: int)

  /** All option nodes, all rule nodes, and the global counter. */
  datatype Dyn = Dyn(otns: seq<Node>, rtns: seq<Node>, activeNodes: int)

  /** For each option node: the rule node that owns it, and its count. */
  datatype System = System(owner: seq<nat>, count: seq<int>, rules: nat)

  predicate Fits(sys: System, s: Dyn) {
    && |s.otns| == |sys.owner| == |sys.count|
    && |s.rtns| == sys.rules
    && forall i :: 0 <= i < |sys.owner| ==> sys.owner[i] < sys.rules
  }

  function Activated(sys: System, s: Dyn, o: nat): (r: Dyn)
    requires Fits(sys, s) && o < |s.otns|
    ensures Fits(sys, r)
  {
    var j, n := sys.owner[o], sys.count[o];
    Dyn(s.otns[o := Node(true, n)], s.rtns[j := Node(true, s.rtns[j].countdown + n)], s.activeNodes + 1)
  }

  /** One down; inactive from zero on. */
  function Tick(n: Node): Node {
    Node(n.active && n.countdown > 1, n.countdown - 1)
  }

  function Counted(sys: System, s: Dyn, o: nat): (r: Dyn)
    requires Fits(sys, s) && o < |s.otns|
    ensures Fits(sys, r)
  {
    var j := sys.owner[o];
    Dyn(s.otns[o := Tick(s.otns[o])], s.rtns[j := Tick(s.rtns[j])],
        if s.otns[o].countdown <= 1 then s.activeNodes - 1 else s.activeNodes)
  }

  class RuleTreeNode {
    var activeFlag: bool
    var countdown: int

    constructor ()
      ensures !activeFlag && countdown == 0
    {
      activeFlag, countdown := false, 0;
    }
  }

  class OptTreeNode {
    var activeFlag: bool
    var countdown: int
    const activationCounter: int
    /** The rule node this one belongs to at run time. */
    const rtn: RuleTreeNode
    /** What an activate rule activates. */
    const otnActivation: OptTreeNode?
    const rtnActivation: RuleTreeNode?

    constructor (count: int, rtn: RuleTreeNode, otnActivation: OptTreeNode?, rtnActivation: RuleTreeNode?)
      ensures !activeFlag && countdown == 0 && activationCounter == count && this.rtn == rtn
      ensures this.otnActivation == otnActivation && this.rtnActivation == rtnActivation
    {
      activeFlag, countdown, activationCounter := false, 0, count;
      this.rtn, this.otnActivation, this.rtnActivation := rtn, otnActivation, rtnActivation;
    }
  }

  ghost predicate ShowsOtns(otns: seq<OptTreeNode>, s: seq<Node>)
    reads otns
  {
    && |s| == |otns|
    && forall i :: 0 <= i < |otns| ==> s[i] == Node(otns[i].activeFlag, otns[i].countdown)
  }

  ghost predicate ShowsRtns(rtns: seq<RuleTreeNode>, s: seq<Node>)
    reads rtns
  {
    && |s| == |rtns|
    && forall i :: 0 <= i < |rtns| ==> s[i] == Node(rtns[i].activeFlag, rtns[i].countdown)
  }

  ghost predicate Distinct<T>(s: seq<T>) {
    forall i, j :: 0 <= i < j < |s| ==> s[i] != s[j]
  }

  class Detection {
    const otns: seq<OptTreeNode>
    const rtns: seq<RuleTreeNode>
    var activeDynamicNodes: int

    constructor (otns: seq<OptTreeNode>, rtns: seq<RuleTreeNode>)
      requires Distinct(otns) && Distinct(rtns)
      ensures this.otns == otns && this.rtns == rtns && activeDynamicNodes == 0
    {
      this.otns, this.rtns := otns, rtns;
      activeDynamicNodes := 0;
    }

    /** The nodes are those of `sys`, each option node with its owner and its count. */
    ghost predicate Built(sys: System) {
      && Distinct(otns) && Distinct(rtns)
      && |sys.owner| == |sys.count| == |otns| && sys.rules == |rtns|
      && forall i :: 0 <= i < |otns| ==>
           && sys.owner[i] < |rtns|
           && otns[i].rtn == rtns[sys.owner[i]]
           && otns[i].activationCounter == sys.count[i]
    }

    /** The fields of all nodes, and the counter, are as `s` says. */
    ghost predicate Shows(s: Dyn)
      reads this, otns, rtns
    {
      ShowsOtns(otns, s.otns) && ShowsRtns(rtns, s.rtns) && s.activeNodes == activeDynamicNodes
    }

    /** An activate rule fired; `o` is the position of the node it activates. */
    method ActivateAction(otn: OptTreeNode, ghost sys: System, ghost s: Dyn, ghost o: nat) returns (r: int)
      requires Built(sys) && Shows(s)
      requires otn.otnActivation != null ==>
                 o < |otns| && otns[o] == otn.otnActivation && otn.rtnActivation == otns[o].rtn
      modifies this`activeDynamicNodes, otns, rtns
      ensures otn.otnActivation == null ==> r == 0 && Shows(s)
      ensures otn.otnActivation != null ==> r == 1 && Shows(Activated(sys, s, o))
    {
      if otn.otnActivation == null {
        return 0;
      }
      var target, rule := otn.otnActivation, otn.rtnActivation;
      assert rule == rtns[sys.owner[o]];
      target.activeFlag := true;
      target.countdown := target.activationCounter;
      rule.activeFlag := true;
      rule.countdown := rule.countdown + target.activationCounter;
      activeDynamicNodes := activeDynamicNodes + 1;
      return 1;
    }

    /** A dynamic rule fired; `o` is the position of its node. */
    method DynamicAction(otn: OptTreeNode, ghost sys: System, ghost s: Dyn, ghost o: nat) returns (r: int)
      requires Built(sys) && Shows(s)
      requires o < |otns| && otns[o] == otn
      modifies this`activeDynamicNodes, otns, rtns
      ensures r == 1 && Shows(Counted(sys, s, o))
    {
      var rule := otn.rtn;
      assert rule == rtns[sys.owner[o]];
      otn.countdown := otn.countdown - 1;
      if otn.countdown <= 0 {
        otn.activeFlag := false;
        activeDynamicNodes := activeDynamicNodes - 1;
      }
      rule.countdown := rule.countdown - 1;
      if rule.countdown <= 0 {
        rule.activeFlag := false;
      }
      return 1;
    }
  }
}
