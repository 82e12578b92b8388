/**
 The connection manager's own state: the map from server key to Connection and
 the `disabled` flag. The read-locked and the write-locked section of
 GetConnection are separate functions, because other threads run between them.
 */
module ConnectionRegistry {
  import opened Prelude
  import opened Connections

  /** DiameterServerConnConfig. */
  datatype Key = Key(addr: string, protocol: string, localAddr: string)

  /** `H` stands for a reference to a Connection object. */
  datatype Registry<H> = Registry(connMap: map<Key, H>, disabled: bool)

  datatype Lookup<H> = Found(h: H) | Refused | Absent

  /** GetConnection between RLock and RUnlock. */
  function ReadLocked<H>(r: Registry<H>, k: Key): Option<H>
  {
    if k in r.connMap then Some(r.connMap[k]) else None
  }

  /** GetConnection after Lock: the flag is tested before the map. */
  function WriteLocked<H>(r: Registry<H>, k: Key): Lookup<H>
  {
    if r.disabled then Refused
    else if k in r.connMap then Found(r.connMap[k])
    else Absent
  }

  /** The reference: GetConnection as one indivisible operation. */
  function AtomicGet<H>(r: Registry<H>, k: Key): Lookup<H>
  {
    if k in r.connMap then Found(r.connMap[k])
    else if r.disabled then Refused
    else Absent
  }

  function Store<H>(r: Registry<H>, k: Key, h: H): Registry<H>
  {
    r.(connMap := r.connMap[k := h])
  }

  /** When a time.AfterFunc timer is due; a period that is not positive is due at once. */
  function Due(now: int, period: int): int
  {
    if period > 0 then now + period else now
  }

  class ConnectionManager {
    var connMap: map<Key, Connection>
    var disabled: bool
    var timers: seq<int>   // when the timers set so far are due; each one calls Enable

    constructor ()
      ensures View() == Registry(map[], false) && timers == []
    {
      connMap, disabled, timers := map[], false, [];
    }

    function View(): Registry<Connection>
      reads this
    {
      Registry(connMap, disabled)
    }

    /** The write-locked section: another thread may have filled the map since the read. */
    method GetOrCreateLocked(k: Key) returns (r: Result<Connection>)
      modifies this`connMap
      ensures match old(WriteLocked(View(), k))
              case Found(c) => r == Ok(c) && View() == old(View())
              case Refused => r == Err && View() == old(View())
              case Absent => r.Ok? && fresh(r.value) && r.value.View() == EMPTY
                             && View() == Store(old(View()), k, r.value)
    {
      if disabled {
        return Err;
      }
      if k in connMap {
        return Ok(connMap[k]);
      }
      var c := new Connection.Fresh();
      connMap := connMap[k := c];
      return Ok(c);
    }

    /** With no other thread running, the two sections together are the indivisible operation. */
    method GetConnection(k: Key) returns (r: Result<Connection>)
      modifies this`connMap
      ensures match old(AtomicGet(View(), k))
              case Found(c) => r == Ok(c) && View() == old(View())
              case Refused => r == Err && View() == old(View())
              case Absent => r.Ok? && fresh(r.value) && r.value.View() == EMPTY
                             && View() == Store(old(View()), k, r.value)
    {
      if k in connMap {
        return Ok(connMap[k]);
      }
      r := GetOrCreateLocked(k);
    }

    /** `meta` is what the conn's context yields; the flag is not consulted. */
    method AddExistingConnection(k: Key, c: ConnId, meta: Option<Metadata>) returns (ok: bool)
      modifies this`connMap
      ensures ok == meta.Some?
      ensures !ok ==> View() == old(View())
      ensures ok ==> k in connMap && fresh(connMap[k]) && View() == Store(old(View()), k, connMap[k])
                     && connMap[k].View() == Slot(Some(c), meta)
    {
      if meta.None? {
        return false;
      }
      var d := new Connection.Existing(c, meta.value);
      connMap := connMap[k := d];
      return true;
    }

    /** Empties every registered slot, then drops the map; `closed` collects the conns closed. */
    method CleanupConnections() returns (closed: set<ConnId>)
      requires forall k <- connMap :: Paired(connMap[k].View())
      modifies this`connMap, connMap.Values
      ensures View() == Registry(map[], old(disabled))
      ensures forall c <- old(connMap.Values) :: c.View() == EMPTY
      ensures forall id :: id in closed <==> exists c <- old(connMap.Values) :: old(c.conn) == Some(id)
    {
      closed := {};
      var left := connMap.Values;
      while left != {}
        invariant left <= old(connMap.Values)
        invariant forall c <- left :: c.View() == old(c.View())
        invariant forall c <- old(connMap.Values) - left :: c.View() == EMPTY
        invariant forall id :: id in closed <==> exists c <- old(connMap.Values) - left :: old(c.conn) == Some(id)
        decreases left
      {
        var c :| c in left;
        var done := old(connMap.Values) - left;
        var id := c.CleanupConnection();
        assert id == old(c.conn);
        left := left - {c};
        assert old(connMap.Values) - left == done + {c};
        if id.Some? {
          closed := closed + {id.value};
        }
      }
      connMap := map[];
    }

    /** `now` is the clock when the call gets to setting the timer, which is never cancelled. */
    method DisableFor(now: int, period: int) returns (closed: set<ConnId>)
      requires forall k <- connMap :: Paired(connMap[k].View())
      modifies this, connMap.Values
      ensures View() == Registry(map[], true)
      ensures timers == old(timers) + [if period > 0 then now + period else now]
      ensures forall c <- old(connMap.Values) :: c.View() == EMPTY
      ensures forall id :: id in closed <==> exists c <- old(connMap.Values) :: old(c.conn) == Some(id)
    {
      disabled := true;
      closed := CleanupConnections();
      timers := timers + [Due(now, period)];
    }

    method Enable()
      modifies this`disabled
      ensures View() == old(View()).(disabled := false)
    {
      disabled := false;
    }
  }
}
