/**
 * Command permissions: the composite that `CommandManager.testPermission`
 * evaluates against a sender, the leaf `Permission` value and the
 * `PermissionResult` a check produces.
 */
module Permissions {
  import opened JavaLang

  /**
   * A command permission. `Permission` is a leaf naming a permission node
   * ("admin.ban"); `PredicatePermission` is a leaf whose test is a callable on
   * the sender, identified here by a number; `OrPermission` and
   * `AndPermission` combine children in order.
   */
  datatype CommandPermission =
    | Permission(node: string)
    | PredicatePermission(id: nat)
    | OrPermission(children: seq<CommandPermission>)
    | AndPermission(children: seq<CommandPermission>)

  /** A leaf `Permission`, the only kind the legacy `Permission` class describes. */
  type LeafPermission = p: CommandPermission | p.Permission? witness Permission("")

  /**
   * What a sender is, as far as permissions go: the permission nodes for which
   * the platform's `hasPermission(sender, String)` answers true, and the
   * predicate permissions whose callable accepts the sender.
   */
  datatype Sender = Sender(granted: set<string>, accepts: set<nat>)

  // -----------------------------------------------------------------------
  // PermissionResult
  // -----------------------------------------------------------------------

  /** The immutable outcome of a permission check and the permission it came from. */
  datatype PermissionResult = PermissionResult(succeeded: bool, permission: CommandPermission)
  {
    /** `failed()`: the command may not be executed. */
    predicate Failed()
    {
      !succeeded
    }
  }

  /** `PermissionResult.of(result, permission)`. */
  function Of(result: bool, permission: CommandPermission): (r: PermissionResult)
    ensures r.succeeded == result && r.Failed() == !result
    ensures r.permission == permission
  {
    PermissionResult(result, permission)
  }

  /** `PermissionResult.succeeded(permission)`. */
  function SucceededFor(permission: CommandPermission): (r: PermissionResult)
    ensures r.succeeded && !r.Failed() && r.permission == permission
  {
    Of(true, permission)
  }

  /** `PermissionResult.failed(permission)`. */
  function FailedFor(permission: CommandPermission): (r: PermissionResult)
    ensures !r.succeeded && r.Failed() && r.permission == permission
  {
    Of(false, permission)
  }

  /** The factories agree with `of`, and `failed()` is always the negation of `succeeded()`. */
  lemma FactoriesAgree(p: CommandPermission, r: PermissionResult)
    ensures SucceededFor(p) == Of(true, p) && FailedFor(p) == Of(false, p)
    ensures r.Failed() != r.succeeded
  {
  }

  // -----------------------------------------------------------------------
  // The legacy leaf Permission
  // -----------------------------------------------------------------------

  /** `Permission.empty()`: the one shared instance with the empty node. */
  const EMPTY: LeafPermission := Permission("")

  function Empty(): (p: LeafPermission)
    ensures p == EMPTY && p.node == ""
  {
    EMPTY
  }

  /** `Permission.of(string)`. */
  function OfNode(s: string): (p: LeafPermission)
    ensures GetPermission(p) == s && ToString(p) == s
  {
    Permission(s)
  }

  /** `getPermission()`. */
  function GetPermission(p: LeafPermission): string {
    p.node
  }

  /** `getPermissions()`: a leaf is its own only member. */
  function GetPermissions(p: LeafPermission): (ps: seq<CommandPermission>)
    ensures |ps| == 1 && ps[0] == p
  {
    [p]
  }

  /** `toString()`: the node itself. */
  function ToString(p: LeafPermission): string {
    p.node
  }

  /** `equals`: two leaf permissions are equal when their nodes are. */
  predicate Equals(a: LeafPermission, b: LeafPermission) {
    GetPermission(a) == GetPermission(b)
  }

  /** `hashCode()`: `Objects.hash(getPermission())`. */
  function HashCode(p: LeafPermission): Int32 {
    HashAll([StringHash(GetPermission(p))])
  }

  /** Java equality of leaf permissions is value equality, and equal permissions hash alike. */
  lemma LeafEqualityIsValueEquality(a: LeafPermission, b: LeafPermission)
    ensures Equals(a, b) <==> a == b
    ensures Equals(a, b) ==> HashCode(a) == HashCode(b)
    ensures Equals(OfNode(GetPermission(a)), a)
  {
  }

  // -----------------------------------------------------------------------
  // Evaluation
  // -----------------------------------------------------------------------

  /**
   * `isEmpty()`: a leaf is empty when its node is ""; a predicate never is;
   * a composite is empty when all its children are (so one with no children is).
   */
  predicate IsEmpty(p: CommandPermission) {
    match p
    case Permission(node) => node == ""
    case PredicatePermission(_) => false
    case OrPermission(cs) => forall i :: 0 <= i < |cs| ==> IsEmpty(cs[i])
    case AndPermission(cs) => forall i :: 0 <= i < |cs| ==> IsEmpty(cs[i])
  }

  /**
   * The boolean meaning of a permission, independently of how the evaluator
   * walks it: an Or holds when it has no children or one of them holds, an And
   * when all its children hold.
   */
  predicate Holds(sender: Sender, p: CommandPermission) {
    match p
    case Permission(node) => node == "" || node in sender.granted
    case PredicatePermission(id) => id in sender.accepts
    case OrPermission(cs) => |cs| == 0 || exists i :: 0 <= i < |cs| && Holds(sender, cs[i])
    case AndPermission(cs) => forall i :: 0 <= i < |cs| ==> Holds(sender, cs[i])
  }

  /**
   * `testPermission(sender, permission)`. The constants TRUE and FALSE and
   * `of(bool)` of the manager's code are results whose origin is the
   * permission under test.
   */
  function TestPermission(sender: Sender, p: CommandPermission): (r: PermissionResult)
    ensures IsEmpty(p) ==> r == SucceededFor(p)
    ensures p.Permission? && !IsEmpty(p) ==> r == Of(p.node in sender.granted, p)
    ensures p.PredicatePermission? ==> r == Of(p.id in sender.accepts, p)
    decreases p, 1, 0
  {
    if IsEmpty(p) then Of(true, p)
    else match p
      case Permission(node) => Of(node in sender.granted, p)
      case PredicatePermission(id) => Of(id in sender.accepts, p)
      case OrPermission(cs) => FirstSucceeding(sender, p, 0)
      case AndPermission(cs) => FirstFailing(sender, p, 0)
  }

  /** The loop of the Or case from child i on: the first succeeding child's result, else FALSE. */
  function FirstSucceeding(sender: Sender, p: CommandPermission, i: nat): (r: PermissionResult)
    requires p.OrPermission? && i <= |p.children|
    ensures !r.succeeded ==> r == FailedFor(p)
    decreases p, 0, |p.children| - i
  {
    if i == |p.children| then Of(false, p)
    else
      var result := TestPermission(sender, p.children[i]);
      if result.succeeded then result else FirstSucceeding(sender, p, i + 1)
  }

  /** The loop of the And case from child i on: the first failing child's result, else TRUE. */
  function FirstFailing(sender: Sender, p: CommandPermission, i: nat): (r: PermissionResult)
    requires p.AndPermission? && i <= |p.children|
    ensures r.succeeded ==> r == SucceededFor(p)
    decreases p, 0, |p.children| - i
  {
    if i == |p.children| then Of(true, p)
    else
      var result := TestPermission(sender, p.children[i]);
      if !result.succeeded then result else FirstFailing(sender, p, i + 1)
  }

  /** `hasPermission(sender, CommandPermission)`: whether the test succeeds. */
  function HasPermission(sender: Sender, p: CommandPermission): (b: bool)
    ensures b <==> Holds(sender, p)
  {
    TestPermissionMeansHolds(sender, p);
    TestPermission(sender, p).succeeded
  }

  /** An empty permission yields a succeeding result whoever the sender is. */
  lemma EmptyAlwaysSucceeds(sender: Sender, p: CommandPermission)
    requires IsEmpty(p)
    ensures TestPermission(sender, p) == SucceededFor(p)
  {
  }

  lemma {:induction false} EmptyHolds(sender: Sender, p: CommandPermission)
    requires IsEmpty(p)
    ensures Holds(sender, p)
  {
    match p
    case Permission(_) =>
    case PredicatePermission(_) =>
    case OrPermission(cs) =>
      if |cs| > 0 {
        EmptyHolds(sender, cs[0]);
      }
    case AndPermission(cs) =>
      forall i | 0 <= i < |cs| ensures Holds(sender, cs[i]) {
        EmptyHolds(sender, cs[i]);
      }
  }

  /** The evaluator succeeds exactly when the permission holds. */
  lemma {:induction false} TestPermissionMeansHolds(sender: Sender, p: CommandPermission)
    ensures TestPermission(sender, p).succeeded <==> Holds(sender, p)
    decreases p, 1
  {
    if IsEmpty(p) {
      EmptyHolds(sender, p);
    } else {
      match p
      case Permission(_) =>
      case PredicatePermission(_) =>
      case OrPermission(cs) => FirstSucceedingMeansSome(sender, p, 0);
      case AndPermission(cs) => FirstFailingMeansAll(sender, p, 0);
    }
  }

  lemma {:induction false} FirstSucceedingMeansSome(sender: Sender, p: CommandPermission, i: nat)
    requires p.OrPermission? && i <= |p.children|
    ensures FirstSucceeding(sender, p, i).succeeded
        <==> exists j :: i <= j < |p.children| && Holds(sender, p.children[j])
    decreases p, 0, |p.children| - i
  {
    if i < |p.children| {
      TestPermissionMeansHolds(sender, p.children[i]);
      FirstSucceedingMeansSome(sender, p, i + 1);
    }
  }

  lemma {:induction false} FirstFailingMeansAll(sender: Sender, p: CommandPermission, i: nat)
    requires p.AndPermission? && i <= |p.children|
    ensures FirstFailing(sender, p, i).succeeded
        <==> forall j :: i <= j < |p.children| ==> Holds(sender, p.children[j])
    decreases p, 0, |p.children| - i
  {
    if i < |p.children| {
      TestPermissionMeansHolds(sender, p.children[i]);
      FirstFailingMeansAll(sender, p, i + 1);
    }
  }

  lemma {:induction false} FirstSucceedingFrom(sender: Sender, p: CommandPermission, k: nat, i: nat)
    requires p.OrPermission? && k <= i < |p.children|
    requires forall j :: k <= j < i ==> !TestPermission(sender, p.children[j]).succeeded
    requires TestPermission(sender, p.children[i]).succeeded
    ensures FirstSucceeding(sender, p, k) == TestPermission(sender, p.children[i])
    decreases i - k
  {
    if k < i {
      FirstSucceedingFrom(sender, p, k + 1, i);
    }
  }

  lemma {:induction false} NoneSucceedingFrom(sender: Sender, p: CommandPermission, k: nat)
    requires p.OrPermission? && k <= |p.children|
    requires forall j :: k <= j < |p.children| ==> !TestPermission(sender, p.children[j]).succeeded
    ensures FirstSucceeding(sender, p, k) == FailedFor(p)
    decreases |p.children| - k
  {
    if k < |p.children| {
      NoneSucceedingFrom(sender, p, k + 1);
    }
  }

  lemma {:induction false} FirstFailingFrom(sender: Sender, p: CommandPermission, k: nat, i: nat)
    requires p.AndPermission? && k <= i < |p.children|
    requires forall j :: k <= j < i ==> TestPermission(sender, p.children[j]).succeeded
    requires !TestPermission(sender, p.children[i]).succeeded
    ensures FirstFailing(sender, p, k) == TestPermission(sender, p.children[i])
    decreases i - k
  {
    if k < i {
      FirstFailingFrom(sender, p, k + 1, i);
    }
  }

  lemma {:induction false} NoneFailingFrom(sender: Sender, p: CommandPermission, k: nat)
    requires p.AndPermission? && k <= |p.children|
    requires forall j :: k <= j < |p.children| ==> TestPermission(sender, p.children[j]).succeeded
    ensures FirstFailing(sender, p, k) == SucceededFor(p)
    decreases |p.children| - k
  {
    if k < |p.children| {
      NoneFailingFrom(sender, p, k + 1);
    }
  }

  /**
   * An Or returns the result of its first succeeding child. Only the children
   * up to that one are constrained, so the children after it cannot change
   * the result: they are never evaluated.
   */
  lemma OrReturnsFirstSuccess(sender: Sender, cs: seq<CommandPermission>, i: nat)
    requires i < |cs| && !IsEmpty(OrPermission(cs))
    requires forall j :: 0 <= j < i ==> !TestPermission(sender, cs[j]).succeeded
    requires TestPermission(sender, cs[i]).succeeded
    ensures TestPermission(sender, OrPermission(cs)) == TestPermission(sender, cs[i])
  {
    FirstSucceedingFrom(sender, OrPermission(cs), 0, i);
  }

  /** An Or none of whose children succeeds yields FALSE. */
  lemma OrWithoutSuccessFails(sender: Sender, cs: seq<CommandPermission>)
    requires !IsEmpty(OrPermission(cs))
    requires forall j :: 0 <= j < |cs| ==> !TestPermission(sender, cs[j]).succeeded
    ensures TestPermission(sender, OrPermission(cs)) == FailedFor(OrPermission(cs))
  {
    NoneSucceedingFrom(sender, OrPermission(cs), 0);
  }

  /** An And returns the result of its first failing child; later children are never evaluated. */
  lemma AndReturnsFirstFailure(sender: Sender, cs: seq<CommandPermission>, i: nat)
    requires i < |cs| && !IsEmpty(AndPermission(cs))
    requires forall j :: 0 <= j < i ==> TestPermission(sender, cs[j]).succeeded
    requires !TestPermission(sender, cs[i]).succeeded
    ensures TestPermission(sender, AndPermission(cs)) == TestPermission(sender, cs[i])
  {
    FirstFailingFrom(sender, AndPermission(cs), 0, i);
  }

  /** An And all of whose children succeed yields TRUE. */
  lemma AndWithoutFailureSucceeds(sender: Sender, cs: seq<CommandPermission>)
    requires forall j :: 0 <= j < |cs| ==> TestPermission(sender, cs[j]).succeeded
    ensures TestPermission(sender, AndPermission(cs)) == SucceededFor(AndPermission(cs))
  {
    if !IsEmpty(AndPermission(cs)) {
      NoneFailingFrom(sender, AndPermission(cs), 0);
    }
  }

  /** And(a, Or(b, c)): allowed for {a, b} and {a, c}, refused for {b, c}. */
  lemma AndOfOrExample()
    ensures var p := AndPermission([Permission("a"), OrPermission([Permission("b"), Permission("c")])]);
      && HasPermission(Sender({"a", "b"}, {}), p)
      && !HasPermission(Sender({"b", "c"}, {}), p)
      && HasPermission(Sender({"a", "c"}, {}), p)
  {
    var p := AndPermission([Permission("a"), OrPermission([Permission("b"), Permission("c")])]);
    var inner := p.children[1];
    assert Holds(Sender({"a", "b"}, {}), inner.children[0]);
    assert Holds(Sender({"a", "c"}, {}), inner.children[1]);
    assert !Holds(Sender({"b", "c"}, {}), p.children[0]);
  }
}
