/**
 * The bookkeeping of `CommandManager`: the registration lifecycle, command
 * registration, the settings, the exception-handler table, the capabilities
 * and the root-command deletion guard. The command tree itself is opaque: its
 * verdicts arrive as parameters.
 */
module Manager {
  import opened Wrappers

  /** `RegistrationState`, in lifecycle order. */
  datatype RegistrationState = BeforeRegistration | Registering | AfterRegistration
  {
    /** The position in the lifecycle; the state never moves to a lower one. */
    function Rank(): nat
    {
      match this
      case BeforeRegistration => 0
      case Registering => 1
      case AfterRegistration => 2
    }
  }

  /** `ManagerSettings`. */
  datatype ManagerSetting =
    | EnforceIntermediaryPermissions
    | ForceSuggestion
    | AllowUnsafeRegistration
    | OverrideExistingCommands
    | LiberalFlagParsing

  /** `CloudCapability`: the standard root-command deletion capability, or any other one. */
  datatype Capability = RootCommandDeletion | OtherCapability(name: string)

  /** An exception class, by name; handlers are keyed by the exact class. */
  type ExceptionClass = string

  /** The exceptions the bookkeeping throws. */
  datatype ManagerError =
    | RegistrationLocked                                            // `command(...)` after locking
    | WrongState(actual: RegistrationState, expected: seq<RegistrationState>)
    | CapabilityMissing(capability: Capability)
    | TreeRejected                                                  // thrown by the tree's insertion

  /** The index of the first occurrence of x in s. */
  function FirstIndex<T(==)>(s: seq<T>, x: T): (i: nat)
    requires x in s
    ensures i < |s| && s[i] == x && x !in s[..i]
  {
    if s[0] == x then 0
    else
      var j := FirstIndex(s[1..], x);
      assert s[..j + 1] == [s[0]] + s[1..][..j];
      j + 1
  }

  /** `LinkedList.remove(Object)`: drop the first occurrence of x, if any; the rest keep their order. */
  function RemoveFirst<T(==)>(s: seq<T>, x: T): (r: seq<T>)
    ensures x !in s ==> r == s
    ensures x in s ==> r == s[..FirstIndex(s, x)] + s[FirstIndex(s, x) + 1..]
  {
    if s == [] then []
    else if s[0] == x then s[1..]
    else
      var rest := RemoveFirst(s[1..], x);
      if x in s[1..] then
        var j := FirstIndex(s[1..], x);
        assert FirstIndex(s, x) == j + 1;
        assert s[..j + 1] == [s[0]] + s[1..][..j];
        assert s[j + 2..] == s[1..][j + 1..];
        [s[0]] + rest
      else [s[0]] + rest
  }

  /** Removing one occurrence takes x out of the multiset of commands once. */
  lemma {:induction false} RemoveFirstMultiset<T>(s: seq<T>, x: T)
    ensures multiset(RemoveFirst(s, x)) == multiset(s) - multiset{x}
  {
    if s != [] {
      assert s == [s[0]] + s[1..];
      if s[0] != x {
        RemoveFirstMultiset(s[1..], x);
      }
    }
  }

  /** Removing first occurrences, one for each element of xs in order. */
  function RemoveEach<T(==)>(s: seq<T>, xs: seq<T>): seq<T> {
    if xs == [] then s else RemoveFirst(RemoveEach(s, xs[..|xs| - 1]), xs[|xs| - 1])
  }

  /** Removing each xs takes exactly the multiset of xs out of the commands. */
  lemma {:induction false} RemoveEachMultiset<T>(s: seq<T>, xs: seq<T>)
    ensures multiset(RemoveEach(s, xs)) == multiset(s) - multiset(xs)
  {
    if xs != [] {
      var init := xs[..|xs| - 1];
      var x := xs[|xs| - 1];
      var prev := RemoveEach(s, init);
      assert xs == init + [x];
      calc {
        multiset(RemoveEach(s, xs));
        multiset(RemoveFirst(prev, x));
        { RemoveFirstMultiset(prev, x); }
        multiset(prev) - multiset{x};
        { RemoveEachMultiset(s, init); }
        (multiset(s) - multiset(init)) - multiset{x};
        multiset(s) - (multiset(init) + multiset{x});
        multiset(s) - multiset(xs);
      }
    }
  }

  /**
   * A command manager. `C` stands for commands, `H` for exception handlers and
   * `R` for the command registration handler.
   */
  class CommandManager<C(==), H, R> {
    var state: RegistrationState
    var settings: set<ManagerSetting>
    var exceptionHandlers: map<ExceptionClass, H>
    var capabilities: set<Capability>
    var commands: seq<C>
    var registrationHandler: R

    /** A new manager: before registration, only intermediary permissions enforced, nothing registered. */
    constructor (registrationHandler: R)
      ensures state == BeforeRegistration
      ensures settings == {EnforceIntermediaryPermissions}
      ensures exceptionHandlers == map[] && capabilities == {} && commands == []
      ensures this.registrationHandler == registrationHandler
    {
      state := BeforeRegistration;
      settings := {EnforceIntermediaryPermissions};
      exceptionHandlers := map[];
      capabilities := {};
      commands := [];
      this.registrationHandler := registrationHandler;
    }

    // ---------------------------------------------------------------------
    // Lifecycle
    // ---------------------------------------------------------------------

    /** `registrationState()`. */
    function RegistrationStateNow(): RegistrationState
      reads this
    {
      state
    }

    /**
     * `transitionIfPossible(in, out)`: compare-and-set from `in` to `out`, or
     * report that the state is already `out`.
     */
    method TransitionIfPossible(from: RegistrationState, to: RegistrationState) returns (ok: bool)
      modifies this`state
      ensures ok <==> old(state) == from || old(state) == to
      ensures old(state) == from ==> state == to
      ensures old(state) != from ==> state == old(state)
    {
      if state == from {
        state := to;
        return true;
      }
      ok := state == to;
    }

    /** `transitionOrThrow(in, out)`. */
    method TransitionOrThrow(from: RegistrationState, to: RegistrationState) returns (e: Option<ManagerError>)
      modifies this`state
      ensures e.None? <==> old(state) == from || old(state) == to
      ensures e.Some? ==> e.value == WrongState(old(state), [from, to])
      ensures old(state) == from ==> state == to
      ensures old(state) != from ==> state == old(state)
    {
      var ok := TransitionIfPossible(from, to);
      if !ok {
        return Some(WrongState(state, [from, to]));
      }
      e := None;
    }

    /** `requireState(expected)`. */
    function RequireState(expected: RegistrationState): (e: Option<ManagerError>)
      reads this
      ensures e.None? <==> state == expected
      ensures e.Some? ==> e.value == WrongState(state, [expected])
    {
      if state != expected then Some(WrongState(state, [expected])) else None
    }

    /** `lockRegistration()`: from any state to after registration; never an error, even when repeated. */
    method LockRegistration() returns (e: Option<ManagerError>)
      modifies this`state
      ensures e.None? && state == AfterRegistration
      ensures old(state).Rank() <= state.Rank()
    {
      if state == BeforeRegistration {
        e := TransitionOrThrow(BeforeRegistration, AfterRegistration);
        return;
      }
      e := TransitionOrThrow(Registering, AfterRegistration);
    }

    /** `isCommandRegistrationAllowed()`. */
    function IsCommandRegistrationAllowed(): (b: bool)
      reads this
      ensures b <==> AllowUnsafeRegistration in settings || state != AfterRegistration
    {
      GetSetting(AllowUnsafeRegistration) || state != AfterRegistration
    }

    /**
     * `command(command)`: refused once registration is locked unless unsafe
     * registration is allowed; otherwise the first registration moves the
     * manager to REGISTERING, the tree inserts the command (`treeAccepts` is
     * its verdict) and the command is appended.
     */
    method Command(command: C, treeAccepts: bool) returns (e: Option<ManagerError>)
      modifies this`state, this`commands
      ensures e == Some(RegistrationLocked)
          <==> old(state) == AfterRegistration && AllowUnsafeRegistration !in settings
      ensures e == Some(RegistrationLocked) ==> state == old(state)
      ensures e != Some(RegistrationLocked) ==>
        state == if old(state) == BeforeRegistration then Registering else old(state)
      ensures e.None? <==> e != Some(RegistrationLocked) && treeAccepts
      ensures e.Some? && e != Some(RegistrationLocked) ==> e.value == TreeRejected
      ensures e.None? ==> commands == old(commands) + [command]
      ensures e.Some? ==> commands == old(commands)
      ensures old(state).Rank() <= state.Rank()
    {
      var transitioned := TransitionIfPossible(BeforeRegistration, Registering);
      if !(transitioned || IsCommandRegistrationAllowed()) {
        return Some(RegistrationLocked);
      }
      if !treeAccepts {
        return Some(TreeRejected);
      }
      commands := commands + [command];
      e := None;
    }

    /** `commandRegistrationHandler()`. */
    function GetRegistrationHandler(): R
      reads this
    {
      registrationHandler
    }

    /** `commandRegistrationHandler(handler)`: only before registration. */
    method SetRegistrationHandler(handler: R) returns (e: Option<ManagerError>)
      modifies this`registrationHandler
      ensures e == RequireState(BeforeRegistration)
      ensures e.None? ==> registrationHandler == handler
      ensures e.Some? ==> registrationHandler == old(registrationHandler)
    {
      e := RequireState(BeforeRegistration);
      if e.None? {
        registrationHandler := handler;
      }
    }

    // ---------------------------------------------------------------------
    // Settings
    // ---------------------------------------------------------------------

    /** `getSetting(setting)`. */
    function GetSetting(setting: ManagerSetting): (b: bool)
      reads this
      ensures b <==> setting in settings
    {
      setting in settings
    }

    /** `setSetting(setting, value)`: that setting becomes `value`, every other one is kept. */
    method SetSetting(setting: ManagerSetting, value: bool)
      modifies this`settings
      ensures GetSetting(setting) == value
      ensures forall other :: other != setting ==> GetSetting(other) == old(GetSetting(other))
      ensures settings == if value then old(settings) + {setting} else old(settings) - {setting}
    {
      if value {
        settings := settings + {setting};
      } else {
        settings := settings - {setting};
      }
    }

    // ---------------------------------------------------------------------
    // Exception handlers
    // ---------------------------------------------------------------------

    /** `registerExceptionHandler(clazz, handler)`: the last registration for a class wins. */
    method RegisterExceptionHandler(clazz: ExceptionClass, handler: H)
      modifies this`exceptionHandlers
      ensures exceptionHandlers == old(exceptionHandlers)[clazz := handler]
      ensures GetExceptionHandler(clazz) == Some(handler)
      ensures forall other :: other != clazz ==> GetExceptionHandler(other) == old(GetExceptionHandler(other))
    {
      exceptionHandlers := exceptionHandlers[clazz := handler];
    }

    /** `getExceptionHandler(clazz)`: the handler registered for exactly that class, or null. */
    function GetExceptionHandler(clazz: ExceptionClass): (h: Option<H>)
      reads this
      ensures h.Some? <==> clazz in exceptionHandlers
      ensures h.Some? ==> h.value == exceptionHandlers[clazz]
    {
      if clazz in exceptionHandlers then Some(exceptionHandlers[clazz]) else None
    }

    /** `handleException`: the handler that receives the exception. */
    function HandleException(clazz: ExceptionClass, defaultHandler: H): (h: H)
      reads this
      ensures clazz in exceptionHandlers ==> h == exceptionHandlers[clazz]
      ensures clazz !in exceptionHandlers ==> h == defaultHandler
    {
      var registered := GetExceptionHandler(clazz);
      if registered.Some? then registered.value else defaultHandler
    }

    // ---------------------------------------------------------------------
    // Capabilities
    // ---------------------------------------------------------------------

    /** `registerCapability(capability)`. */
    method RegisterCapability(capability: Capability)
      modifies this`capabilities
      ensures capabilities == old(capabilities) + {capability}
    {
      capabilities := capabilities + {capability};
    }

    /** `hasCapability(capability)`. */
    function HasCapability(capability: Capability): (b: bool)
      reads this
      ensures b <==> capability in capabilities
    {
      capability in capabilities
    }

    /** `capabilities()`: a snapshot of the registered capabilities. */
    function Capabilities(): (cs: set<Capability>)
      reads this
      ensures forall c :: c in cs <==> HasCapability(c)
    {
      capabilities
    }

    /**
     * `deleteRootCommand(rootCommand)`: refused without the deletion capability.
     * `nodeFound` is whether the tree has a node with a component under that
     * name, and `detached` the commands its recursive deletion hands back,
     * each of which is removed from the registered commands.
     */
    method DeleteRootCommand(rootCommand: string, nodeFound: bool, detached: seq<C>) returns (e: Option<ManagerError>)
      modifies this`commands
      ensures RootCommandDeletion !in capabilities ==>
        e == Some(CapabilityMissing(RootCommandDeletion)) && commands == old(commands)
      ensures RootCommandDeletion in capabilities ==> e.None?
      ensures RootCommandDeletion in capabilities && !nodeFound ==> commands == old(commands)
      ensures RootCommandDeletion in capabilities && nodeFound ==> commands == RemoveEach(old(commands), detached)
    {
      if !HasCapability(RootCommandDeletion) {
        return Some(CapabilityMissing(RootCommandDeletion));
      }
      if !nodeFound {
        return None;
      }
      var i := 0;
      while i < |detached|
        invariant 0 <= i <= |detached|
        invariant commands == RemoveEach(old(commands), detached[..i])
      {
        assert detached[..i + 1][..i] == detached[..i];
        commands := RemoveFirst(commands, detached[i]);
        i := i + 1;
      }
      assert detached[..i] == detached;
      e := None;
    }
  }

  /**
   * Two registrations in a row: only the first moves the manager out of
   * BEFORE_REGISTRATION, both succeed, and both commands are kept in order.
   */
  method TwoRegistrations<C(==), H, R>(handler: R, first: C, second: C)
    returns (m: CommandManager<C, H, R>, e1: Option<ManagerError>, e2: Option<ManagerError>)
    ensures e1.None? && e2.None?
    ensures m.state == Registering && m.commands == [first, second]
  {
    m := new CommandManager(handler);
    e1 := m.Command(first, true);
    assert m.state == Registering;
    e2 := m.Command(second, true);
  }

  /** After locking, a registration is refused until unsafe registration is switched on. */
  method LockedRegistration<C(==), H, R>(handler: R, command: C) returns (refused: bool, accepted: bool)
    ensures refused && accepted
  {
    var m := new CommandManager<C, H, R>(handler);
    var _ := m.LockRegistration();
    var e1 := m.Command(command, true);
    refused := e1 == Some(RegistrationLocked);
    m.SetSetting(AllowUnsafeRegistration, true);
    var e2 := m.Command(command, true);
    accepted := e2.None? && m.state == AfterRegistration;
  }
}
