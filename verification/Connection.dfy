/**
 The mutable part of a diameter `Connection`: the diam.Conn it stores and that
 conn's peer metadata. The three critical sections guarded by `Connection.mutex`
 are functions on a `Slot`; the class runs them on its fields, and the step
 machine in ConnectionMachine interleaves them.
 */
module Connections {
  import opened Prelude

  /** The identity of a diam.Conn. */
  type ConnId = nat

  /** What capability exchange told us about the peer. */
  datatype Metadata = Metadata(originHost: string, originRealm: string)

  datatype Slot = Slot(conn: Option<ConnId>, metadata: Option<Metadata>)

  const EMPTY: Slot := Slot(None, None)

  /** How a dial can end: an error, a conn without metadata, or a usable conn. */
  datatype Dial =
    | DialFailed
    | NoMetadata(c: ConnId)
    | Dialed(c: ConnId, metadata: Metadata)

  /** `got` is what the caller receives; `closed` is what the section itself closes. */
  datatype Acquired = Acquired(slot: Slot, got: Result<(ConnId, Option<Metadata>)>, closed: Option<ConnId>)

  /** getDiamConnection: reuse the stored conn, or dial and store a new one. */
  function Acquire(s: Slot, d: Dial): Acquired
  {
    if s.conn.Some? then Acquired(s, Ok((s.conn.value, s.metadata)), None)
    else match d
      case DialFailed => Acquired(s, Err, None)
      case NoMetadata(c) => Acquired(s, Err, Some(c))
      case Dialed(c, m) => Acquired(Slot(Some(c), Some(m)), Ok((c, Some(m))), None)
  }

  /** The locked part of destroyConnection: forget `c` only if it is still the stored conn. */
  function Discard(s: Slot, c: ConnId): Slot
  {
    if s.conn == Some(c) then EMPTY else s
  }

  /** A slot holds metadata exactly when it holds a conn. */
  predicate Paired(s: Slot)
  {
    s.conn.Some? <==> s.metadata.Some?
  }

  /**
   A conn is returned iff it was stored, with its metadata, or nothing was and it
   has just been dialled; what is returned is what is stored afterwards, and only
   a dialled conn without metadata is closed.
   */
  lemma AcquireIff(s: Slot, d: Dial, c: ConnId, m: Option<Metadata>)
    ensures Acquire(s, d).got == Ok((c, m)) <==>
            s == Slot(Some(c), m) || (s.conn.None? && m.Some? && d == Dialed(c, m.value))
    ensures Acquire(s, d).slot == match Acquire(s, d).got case Ok((c', m')) => Slot(Some(c'), m') case Err => s
    ensures Acquire(s, d).closed == Some(c) <==> s.conn.None? && d == NoMetadata(c)
  {
  }

  class Connection {
    var conn: Option<ConnId>
    var metadata: Option<Metadata>

    /** newConnection: nothing is stored until the first dial. */
    constructor Fresh()
      ensures View() == EMPTY
    {
      conn, metadata := None, None;
    }

    /** The Connection built by AddExistingConnection around a live conn. */
    constructor Existing(c: ConnId, m: Metadata)
      ensures View() == Slot(Some(c), Some(m))
    {
      conn, metadata := Some(c), Some(m);
    }

    function View(): Slot
      reads this
    {
      Slot(conn, metadata)
    }

    method GetDiamConnection(d: Dial) returns (got: Result<(ConnId, Option<Metadata>)>, closed: Option<ConnId>)
      requires Paired(View())
      modifies this
      ensures Acquired(View(), got, closed) == Acquire(old(View()), d)
      ensures Paired(View())
      ensures got.Ok? ==> conn == Some(got.value.0) && metadata == got.value.1 && metadata.Some?
    {
      if conn.Some? {
        return Ok((conn.value, metadata)), None;
      }
      match d {
        case DialFailed => return Err, None;
        case NoMetadata(c) => return Err, Some(c);
        case Dialed(c, m) =>
          conn, metadata := Some(c), Some(m);
          return Ok((c, Some(m))), None;
      }
    }

    /** `closed` is the conn on which Close() is called after the mutex is released. */
    method DestroyConnection(c: Option<ConnId>) returns (closed: Option<ConnId>)
      requires Paired(View())
      modifies this
      ensures closed == c
      ensures Paired(View())
      ensures View() == if c.Some? then Discard(old(View()), c.value) else old(View())
      ensures c.Some? ==> conn != c
    {
      if c.None? {
        return None;
      }
      if c == conn {
        conn, metadata := None, None;
      }
      return c;
    }

    method CleanupConnection() returns (closed: Option<ConnId>)
      modifies this
      ensures closed == old(conn)
      ensures old(Paired(View())) ==> View() == EMPTY
      ensures conn == None
    {
      var c := conn;
      if c.Some? {
        conn, metadata := None, None;
      }
      return c;
    }
  }
}
