/**
 * The TickHook registry: one list of hooks shared by all TickHook objects,
 * an enabled flag per hook, and the dispatcher vApplicationTickHook that
 * runs the enabled ones.
 *
 * A hook is identified by its address (a `Hook` value). The static list
 * becomes the `callbacks` field of a Registry object. The per-object
 * `enabled` members become a map from live hooks to their flag. What a
 * hook's `run` does is user code: the dispatcher's effect is the sequence
 * of hooks whose `run` it calls.
 */
module TickHooks {

  type Hook = nat

  /** `s` with every occurrence of `h` removed and the rest in order: std::list::remove. */
  function Removed(s: seq<Hook>, h: Hook): (r: seq<Hook>)
    ensures forall x :: x in r <==> x in s && x != h
    ensures multiset(r) == multiset(s)[h := 0]
    decreases |s|
  {
    if s == [] then []
    else
      assert s == [s[0]] + s[1..];
      if s[0] == h then Removed(s[1..], h)
      else [s[0]] + Removed(s[1..], h)
  }

  /** The hooks of `callbacks` whose flag is set, front to back: the order of the run calls. */
  function EnabledInOrder(callbacks: seq<Hook>, enabled: map<Hook, bool>): (r: seq<Hook>)
    requires forall x :: x in callbacks ==> x in enabled
    ensures forall x :: x in r <==> x in callbacks && enabled[x]
    ensures |r| <= |callbacks|
    decreases |callbacks|
  {
    if callbacks == [] then []
    else
      var last := callbacks[|callbacks| - 1];
      EnabledInOrder(callbacks[..|callbacks| - 1], enabled) + (if enabled[last] then [last] else [])
  }

  /** Removing a hook from a concatenation removes it from each part. */
  lemma {:induction false} RemovedAppend(a: seq<Hook>, b: seq<Hook>, h: Hook)
    ensures Removed(a + b, h) == Removed(a, h) + Removed(b, h)
    decreases |a|
  {
    if a == [] {
      assert a + b == b;
    } else {
      assert (a + b)[0] == a[0];
      assert (a + b)[1..] == a[1..] + b;
      RemovedAppend(a[1..], b, h);
    }
  }

  /** Removing a hook that is not in the list leaves the list as it is. */
  lemma {:induction false} RemovedAbsent(s: seq<Hook>, h: Hook)
    requires h !in s
    ensures Removed(s, h) == s
    decreases |s|
  {
    if s != [] {
      RemovedAbsent(s[1..], h);
      assert s == [s[0]] + s[1..];
    }
  }

  /** The dispatch order of a concatenation is the dispatch order of each part. */
  lemma {:induction false} EnabledAppend(a: seq<Hook>, b: seq<Hook>, enabled: map<Hook, bool>)
    requires forall x :: x in a ==> x in enabled
    requires forall x :: x in b ==> x in enabled
    ensures EnabledInOrder(a + b, enabled) == EnabledInOrder(a, enabled) + EnabledInOrder(b, enabled)
    decreases |b|
  {
    if b == [] {
      assert a + b == a;
    } else {
      var init, last := b[..|b| - 1], b[|b| - 1];
      var tail := if enabled[last] then [last] else [];
      assert (a + b)[..|a + b| - 1] == a + init;
      assert (a + b)[|a + b| - 1] == last;
      assert EnabledInOrder(a + b, enabled) == EnabledInOrder(a + init, enabled) + tail;
      assert EnabledInOrder(b, enabled) == EnabledInOrder(init, enabled) + tail;
      EnabledAppend(a, init, enabled);
    }
  }

  /** Each registration of an enabled hook yields one run per tick; a disabled hook yields none. */
  lemma {:induction false} RunsPerTick(callbacks: seq<Hook>, enabled: map<Hook, bool>, h: Hook)
    requires forall x :: x in callbacks ==> x in enabled
    ensures multiset(EnabledInOrder(callbacks, enabled))[h]
         == if h in enabled && enabled[h] then multiset(callbacks)[h] else 0
    decreases |callbacks|
  {
    if callbacks != [] {
      var init := callbacks[..|callbacks| - 1];
      assert callbacks == init + [callbacks[|callbacks| - 1]];
      RunsPerTick(init, enabled, h);
    }
  }

  /** A hook registered twice is run twice per tick, first of all, while enabled. */
  lemma RegisteredTwiceRunsTwice(callbacks: seq<Hook>, enabled: map<Hook, bool>, h: Hook)
    requires forall x :: x in callbacks ==> x in enabled
    requires h in enabled && enabled[h]
    ensures EnabledInOrder([h] + ([h] + callbacks), enabled) == [h, h] + EnabledInOrder(callbacks, enabled)
  {
    assert [h] + ([h] + callbacks) == [h, h] + callbacks;
    EnabledAppend([h, h], callbacks, enabled);
    assert [h, h][..1] == [h];
    assert [h][..0] == [];
  }

  /**
   * A disabled hook keeps its place in the list and is skipped; enabling it
   * again restores exactly the dispatch order it had before.
   */
  lemma DisabledSkippedUntilEnabled(callbacks: seq<Hook>, enabled: map<Hook, bool>, h: Hook)
    requires forall x :: x in callbacks ==> x in enabled
    requires h in enabled && enabled[h]
    ensures h !in EnabledInOrder(callbacks, enabled[h := false])
    ensures EnabledInOrder(callbacks, enabled[h := false][h := true]) == EnabledInOrder(callbacks, enabled)
  {
    assert enabled[h := false][h := true] == enabled;
  }

  class Registry {
    var callbacks: seq<Hook>
    var enabled: map<Hook, bool>

    /** Every listed hook is a live TickHook object. */
    ghost predicate Valid()
      reads this
    {
      forall x :: x in callbacks ==> x in enabled
    }

    /** The static list starts empty, before any hook exists. */
    constructor ()
      ensures Valid() && callbacks == [] && enabled == map[]
    {
      callbacks := [];
      enabled := map[];
    }

    /** TickHook::TickHook: a new hook is enabled and not yet registered. */
    method NewHook(h: Hook)
      requires Valid() && h !in enabled
      modifies this
      ensures Valid()
      ensures callbacks == old(callbacks) && enabled == old(enabled)[h := true]
      ensures h !in callbacks
    {
      enabled := enabled[h := true];
    }

    /** TickHook::~TickHook: every occurrence of the hook leaves the list, the others keep their order. */
    method Destroy(h: Hook)
      requires Valid() && h in enabled
      modifies this
      ensures Valid()
      ensures callbacks == Removed(old(callbacks), h) && enabled == old(enabled) - {h}
    {
      callbacks := Removed(callbacks, h);
      enabled := enabled - {h};
    }

    /** TickHook::registerTickHook: pushes the hook at the front, even if it is already listed. */
    method Register(h: Hook)
      requires Valid() && h in enabled
      modifies this
      ensures Valid()
      ensures callbacks == [h] + old(callbacks) && enabled == old(enabled)
      ensures multiset(callbacks)[h] == multiset(old(callbacks))[h] + 1
    {
      callbacks := [h] + callbacks;
    }

    /** TickHook::disable: clears the flag; the list is untouched. */
    method Disable(h: Hook)
      requires Valid() && h in enabled
      modifies this
      ensures Valid()
      ensures callbacks == old(callbacks) && enabled == old(enabled)[h := false]
    {
      enabled := enabled[h := false];
    }

    /** TickHook::enable: sets the flag; the list is untouched. */
    method Enable(h: Hook)
      requires Valid() && h in enabled
      modifies this
      ensures Valid()
      ensures callbacks == old(callbacks) && enabled == old(enabled)[h := true]
    {
      enabled := enabled[h := true];
    }

    /**
     * vApplicationTickHook: walks the list front to back and runs each
     * enabled hook. It changes neither the list nor any flag.
     */
    method Dispatch() returns (ran: seq<Hook>)
      requires Valid()
      ensures ran == EnabledInOrder(callbacks, enabled)
    {
      ran := [];
      var i := 0;
      while i < |callbacks|
        invariant 0 <= i <= |callbacks|
        invariant ran == EnabledInOrder(callbacks[..i], enabled)
      {
        var hook := callbacks[i];
        assert callbacks[..i + 1][..i] == callbacks[..i];
        if enabled[hook] {
          ran := ran + [hook];
        }
        i := i + 1;
      }
      assert callbacks[..i] == callbacks;
    }
  }

  /** A new hook registered twice runs twice per tick, ahead of the hooks listed before it. */
  lemma NewHookRegisteredTwiceRuns(before: seq<Hook>, enabled: map<Hook, bool>, h: Hook)
    requires forall x :: x in before ==> x in enabled
    requires h !in enabled
    ensures EnabledInOrder([h] + ([h] + before), enabled[h := true]) == [h, h] + EnabledInOrder(before, enabled)
  {
    var en := enabled[h := true];
    assert forall x :: x in before ==> x in en;
    RegisteredTwiceRunsTwice(before, en, h);
    EnabledFrame(before, enabled, h, true);
  }

  /** Destroying a hook registered twice on top of a list without it gives that list back. */
  lemma DestroyUndoesRegistrations(before: seq<Hook>, h: Hook)
    requires h !in before
    ensures Removed([h] + ([h] + before), h) == before
  {
    var once := [h] + before;
    assert ([h] + once)[1..] == once && once[1..] == before;
    RemovedAbsent(before, h);
  }

  /**
   * A hook that is registered twice and then destroyed: it is run twice per
   * tick while it lives, and the list afterwards is the one before it was
   * registered.
   */
  method RegisterTwiceThenDestroy(r: Registry, h: Hook) returns (ranTwice: seq<Hook>)
    requires r.Valid() && h !in r.enabled
    modifies r
    ensures r.Valid() && r.callbacks == old(r.callbacks) && r.enabled == old(r.enabled)
    ensures ranTwice == [h, h] + EnabledInOrder(old(r.callbacks), old(r.enabled))
  {
    NewHookRegisteredTwiceRuns(r.callbacks, r.enabled, h);
    DestroyUndoesRegistrations(r.callbacks, h);
    assert r.enabled[h := true] - {h} == r.enabled;
    r.NewHook(h);
    r.Register(h);
    r.Register(h);
    ranTwice := r.Dispatch();
    r.Destroy(h);
  }

  /** Setting the flag of a hook that is not listed does not change the dispatch order. */
  lemma {:induction false} EnabledFrame(callbacks: seq<Hook>, enabled: map<Hook, bool>, h: Hook, flag: bool)
    requires forall x :: x in callbacks ==> x in enabled
    requires h !in callbacks
    ensures EnabledInOrder(callbacks, enabled[h := flag]) == EnabledInOrder(callbacks, enabled)
    decreases |callbacks|
  {
    if callbacks != [] {
      EnabledFrame(callbacks[..|callbacks| - 1], enabled, h, flag);
    }
  }
}
