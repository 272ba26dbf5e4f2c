/** A session: conversation history with an exclusive run lease. */
module Session {
  import opened Json
  import opened Types

  datatype SessionOptions = SessionOptions(system: Option<string>, messages: seq<Message>)

  predicate NoSystemMessage(messages: seq<Message>)
  {
    forall i | 0 <= i < |messages| :: !messages[i].role.SystemRole?
  }

  class Session {
    var system: Option<string>
    var messages: seq<Message>
    var active: bool

    ghost predicate Valid()
      reads this
    {
      NoSystemMessage(messages) && (system.Some? ==> system.value != [])
    }

    constructor (options: SessionOptions)
      requires NoSystemMessage(options.messages) && (options.system.Some? ==> options.system.value != [])
      ensures Valid() && !active && messages == options.messages && system == options.system
    {
      system := options.system;
      messages := options.messages;
      active := false;
    }

    /** Restoring refuses an empty system instruction and any system message. */
    static method Restore(options: SessionOptions) returns (r: Result<Session, Failure>)
      ensures r.Ok? <==> NoSystemMessage(options.messages) && (options.system.Some? ==> options.system.value != [])
      ensures r.Ok? ==>
                && fresh(r.value) && r.value.Valid() && !r.value.active
                && r.value.messages == options.messages && r.value.system == options.system
    {
      if options.system.Some? && options.system.value == [] {
        return Err(InvalidArgument("system message must not be empty"));
      }
      for i := 0 to |options.messages|
        invariant forall j | 0 <= j < i :: !options.messages[j].role.SystemRole?
      {
        if options.messages[i].role.SystemRole? {
          return Err(InvalidArgument("restored messages must not contain a system message"));
        }
      }
      var session := new Session(options);
      r := Ok(session);
    }

    method SetSystem(message: string) returns (error: Option<Failure>)
      requires Valid()
      modifies this`system
      ensures Valid()
      ensures error.None? <==> message != [] && !active && messages == []
      ensures system == if error.None? then Some(message) else old(system)
      ensures message != [] && active ==> error == Some(SessionInUse)
    {
      if message == [] { return Some(InvalidArgument("system message must not be empty")); }
      if active { return Some(SessionInUse); }
      if messages != [] { return Some(InvalidArgument("system message cannot change after history begins")); }
      system := Some(message);
      error := None;
    }

    method Append(message: Message) returns (error: Option<Failure>)
      requires Valid()
      modifies this`messages
      ensures Valid()
      ensures error.None? <==> !message.role.SystemRole? && !active
      ensures messages == if error.None? then old(messages) + [message] else old(messages)
      ensures !message.role.SystemRole? && active ==> error == Some(SessionInUse)
    {
      if message.role.SystemRole? { return Some(InvalidArgument("append does not accept system messages")); }
      if active { return Some(SessionInUse); }
      messages := messages + [message];
      error := None;
    }

    method ClearMessages() returns (error: Option<Failure>)
      requires Valid()
      modifies this`messages
      ensures Valid()
      ensures error == if active then Some(SessionInUse) else None
      ensures messages == if active then old(messages) else []
    {
      if active { return Some(SessionInUse); }
      messages := [];
      error := None;
    }

    /** The client's own append: allowed while the lease is held. */
    method AppendFromClient(message: Message) returns (error: Option<Failure>)
      requires Valid()
      modifies this`messages
      ensures Valid()
      ensures error.None? <==> !message.role.SystemRole?
      ensures messages == if error.None? then old(messages) + [message] else old(messages)
    {
      if message.role.SystemRole? {
        return Some(InvalidArgument("client transcript must not contain system messages"));
      }
      messages := messages + [message];
      error := None;
    }

    method Acquire() returns (r: Result<RunLease, Failure>)
      modifies this`active
      ensures active
      ensures r.Ok? <==> !old(active)
      ensures r.Ok? ==> fresh(r.value) && r.value.session == this
      ensures r.Err? ==> r.error == SessionInUse
    {
      if active { return Err(SessionInUse); }
      active := true;
      var lease := new RunLease(this);
      r := Ok(lease);
    }
  }

  /** Ownership of the session for one run. A lease that was moved from owns nothing. */
  class RunLease {
    var session: Session?

    constructor (session: Session)
      ensures this.session == session
    {
      this.session := session;
    }

    method Move() returns (other: RunLease)
      requires session != null
      modifies this
      ensures fresh(other) && other.session == old(session) && session == null
      ensures other.session.active == old(session.active)
    {
      other := new RunLease(session);
      session := null;
    }

    /** The destructor: releases once, and not at all after a move. */
    method Destroy()
      modifies this, (if session == null then {} else {session})`active
      ensures session == null
      ensures old(session) != null ==>
                !old(session).active
    {
      if session != null {
        session.active := false;
        session := null;
      }
    }
  }
}
