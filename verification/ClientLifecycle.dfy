/** The initialize lifecycle of a v2 client connection (v2/client.go): the three
    flags and the recorded initialization, and the guards that read and move them.

    An initialization is represented by a number; its contents never matter here. */
module ClientLifecycle {

  import opened Options

  /** The flags a v2 Connection holds under its own mutex. */
  datatype Flags = Flags(initialized: bool, initializing: bool, repeatable: bool, initialization: nat)

  const NO_FLAGS := Flags(false, false, false, 0)

  /** The kinds of message the guard of outgoing messages tells apart. */
  datatype Message = Initialize | Request | Notification | CancelNotification

  predicate Allowed(f: Flags, m: Message) {
    (f.initialized && !f.initializing) || (m == CancelNotification && f.initializing)
  }

  /** Whether an initialize may begin: none is in progress, and the last success,
      if any, may still be repeated. */
  predicate MayBegin(f: Flags) {
    !f.initializing && (f.initialized ==> f.repeatable)
  }

  function Begin(f: Flags): Flags
    requires MayBegin(f)
  {
    f.(initializing := true, repeatable := false)
  }

  /** A response to an initialize: `outcome` holds the initialization the agent's v2
      response carried, or nothing when the response was an error, was malformed, or
      selected another version. */
  function Complete(f: Flags, outcome: Option<nat>): Flags {
    match outcome
    case None => f.(initializing := false, repeatable := f.initialized)
    case Some(v) => Flags(true, false, true, v)
  }

  /** The flags can no longer move: see LifecycleGuarantees.FrozenForGood. */
  predicate Frozen(f: Flags) {
    f.initialized && !f.initializing && !f.repeatable
  }

  /** The v2 client's connection object. */
  class Client {
    var initialized: bool
    var initializing: bool
    var repeatable: bool
    var initialization: nat

    function Abs(): Flags
      reads this
    {
      Flags(initialized, initializing, repeatable, initialization)
    }

    constructor ()
      ensures Abs() == NO_FLAGS
    {
      initialized, initializing, repeatable, initialization := false, false, false, 0;
    }

    method CheckAllowed(m: Message) returns (admitted: bool)
      ensures admitted <==> Allowed(Abs(), m)
    {
      if initialized && !initializing {
        return true;
      } else if m == CancelNotification && initializing {
        return true;
      }
      return false;
    }

    method BeginInitialize() returns (admitted: bool)
      modifies this
      ensures admitted <==> MayBegin(old(Abs()))
      ensures Abs() == if admitted then Begin(old(Abs())) else old(Abs())
      ensures admitted <==> !old(initializing) && (!old(initialized) || old(repeatable))
      ensures admitted ==> Abs() == Flags(old(initialized), true, false, old(initialization))
    {
      if initializing {
        return false;
      } else if initialized && !repeatable {
        return false;
      }
      initializing := true;
      repeatable := false;
      return true;
    }

    method CompleteInitialize(value: nat, success: bool)
      modifies this
      ensures Abs() == Complete(old(Abs()), if success then Some(value) else None)
      ensures Abs() == if success then Flags(true, false, true, value) else Flags(old(initialized), false, old(initialized), old(initialization))
    {
      initializing := false;
      if success {
        initialized := true;
        initialization := value;
      }
      repeatable := initialized;
    }

    /** The guard of outgoing messages, run while the connection's send lock is held.
        `enclosed` is a request that wraps an initialize, and `wellFormed` says whether
        an initialize's params can be rewritten for v2; both are read from the params. */
    method Outgoing(m: Message, enclosed: bool, wellFormed: bool) returns (admitted: bool)
      modifies this
      ensures m == Initialize ==>
        (admitted <==> !enclosed && wellFormed && MayBegin(old(Abs()))) &&
        Abs() == if admitted then Begin(old(Abs())) else old(Abs())
      ensures m == Request ==>
        (admitted <==> !enclosed && old(initialized) && !old(initializing)) &&
        Abs() == old(Abs()).(repeatable := old(repeatable) && !admitted)
      ensures m.Notification? || m.CancelNotification? ==> Abs() == old(Abs())
      ensures m.Notification? ==> (admitted <==> old(initialized) && !old(initializing))
      ensures m.CancelNotification? ==> (admitted <==> old(initialized) || old(initializing))
    {
      if (m == Initialize || m == Request) && enclosed {
        return false;
      }
      if m == Initialize {
        if !wellFormed {
          return false;
        }
        admitted := BeginInitialize();
        return;
      }
      admitted := CheckAllowed(m);
      if !admitted {
        return;
      }
      if m == Request {
        repeatable := false;
      }
    }

    /** The guard of incoming responses. `failed` is an error response, `decoded` the
        outcome of typing a successful initialize response. The response delivered to
        the caller is an error exactly when `delivered` is false. */
    method IncomingResponse(m: Message, failed: bool, decoded: Option<nat>, decodeError: bool)
      returns (delivered: bool)
      requires m == Initialize || m == Request
      modifies this
      ensures m == Request ==>
        Abs() == old(Abs()) && (delivered <==> !failed && initialized && !initializing)
      ensures m == Initialize ==>
        (delivered <==> !failed && !decodeError) &&
        Abs() == Complete(old(Abs()), if failed || decodeError then None else decoded)
    {
      if m != Initialize {
        if failed {
          return false;
        }
        delivered := CheckAllowed(m);
        return;
      }
      if failed {
        CompleteInitialize(0, false);
        return false;
      }
      if decodeError || decoded.None? {
        CompleteInitialize(0, false);
        return !decodeError;
      }
      CompleteInitialize(decoded.value, true);
      return true;
    }
  }
}
