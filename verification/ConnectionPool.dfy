/**
 The connection pool: each method is one critical section under m_queueMutex.  The
 borrowers' connections, the deleted ones and the clock are ghost state; clock readings
 are parameters.
 */
module ConnectionPools {
  import opened Bytes
  import opened PoolSpec
  import Safety = PoolSafety

  class Connection {
    var aliveTime: int

    constructor (now: int)
      ensures aliveTime == now
    {
      aliveTime := now;
    }

    method RefreshAliveTime(now: int)
      modifies this
      ensures aliveTime == now
    {
      aliveTime := now;
    }

    // Milliseconds since the connection became idle; the cast truncates.
    method GetAliveTime(now: int) returns (millis: int)
      ensures aliveTime <= now ==> millis == (now - aliveTime) / 1_000_000
    {
      var res := now - aliveTime;
      millis := if res >= 0 then res / 1_000_000 else -(-res / 1_000_000);
    }
  }

  ghost function IdleConns(que: seq<Connection>): (idle: seq<Idle<Connection>>)
    reads que
    ensures |idle| == |que| && forall i :: 0 <= i < |que| ==> idle[i] == Idle(que[i], que[i].aliveTime)
  {
    if que == [] then [] else IdleConns(que[..|que| - 1]) + [Idle(que[|que| - 1], que[|que| - 1].aliveTime)]
  }

  class ConnectionPool {
    const config: Config
    var connectionQue: seq<Connection>
    var connectionCnt: int
    ghost var leased: set<Connection>
    ghost var deleted: set<Connection>
    ghost var clock: int

    ghost function View(): Pool<Connection>
      reads this, connectionQue
    {
      Pool(IdleConns(connectionQue), leased, deleted, connectionCnt, clock)
    }

    ghost predicate Valid()
      reads this, connectionQue
    {
      Safety.Inv(config, View())
    }

    // One new connection for each of the clock readings.
    constructor (config: Config, readings: seq<int>)
      requires |readings| == Safety.Floor(config) && Ascending(readings, 0)
      ensures Valid() && this.config == config && leased == {} && deleted == {}
      ensures |connectionQue| == Safety.Floor(config) && fresh(connectionQue)
    {
      hide Safety.Conserved, Safety.Sorted;
      this.config := config;
      connectionQue, connectionCnt, leased, deleted, clock := [], 0, {}, {}, 0;
      new;
      Safety.EmptyHolds<Connection>();
      var i := 0;
      while i < config.initSize
        invariant 0 <= i <= |readings| && |connectionQue| == connectionCnt == i && fresh(connectionQue)
        invariant Safety.Conserved(View()) && Safety.Sorted(View().idle, clock)
        invariant leased == {} && deleted == {}
        invariant clock == if i == 0 then 0 else readings[i - 1]
      {
        var p := AddNew(readings[i]);
        i := i + 1;
      }
    }

    method AddNew(now: int) returns (p: Connection)
      requires Safety.Conserved(View()) && Safety.Sorted(View().idle, clock) && clock <= now
      modifies this`connectionQue, this`connectionCnt, this`clock
      ensures fresh(p) && View() == Add(old(View()), p, now) && connectionQue == old(connectionQue) + [p]
      ensures Safety.Conserved(View()) && Safety.Sorted(View().idle, clock)
    {
      ghost var was := View();
      p := new Connection(now);
      assert forall i :: 0 <= i < |connectionQue| ==> was.idle[i].conn == connectionQue[i] != p;
      assert p !in leased + deleted;
      Safety.AddKeeps(was, p, now);
      connectionQue := connectionQue + [p];
      connectionCnt := connectionCnt + 1;
      clock := now;
      assert View().idle == was.idle + [Idle(p, now)];
    }

    // The producer, once the queue is empty.
    method ProduceConnection(now: int) returns (made: Option<Connection>)
      requires Valid() && connectionQue == [] && clock <= now
      modifies this`connectionQue, this`connectionCnt, this`clock
      ensures Valid() && made.Some? == (old(connectionCnt) < config.maxSize)
      ensures made.Some? ==> fresh(made.value) && View() == After(config, old(View()), Produce(made.value, now))
      ensures made.None? ==> View() == old(View())
    {
      made := None;
      if connectionCnt < config.maxSize {
        var p := AddNew(now);
        made := Some(p);
      }
    }

    // A borrower, once the queue is not empty.
    method GetConnection() returns (sp: Connection)
      requires Valid() && connectionQue != []
      modifies this`connectionQue, this`leased
      ensures Valid() && sp == old(connectionQue)[0] && View() == After(config, old(View()), Get)
      ensures forall i :: 0 <= i < |old(connectionQue)| ==> sp.aliveTime <= old(connectionQue)[i].aliveTime
    {
      Safety.GetKeeps(config, View());
      sp := connectionQue[0];
      leased := leased + {sp};
      connectionQue := connectionQue[1..];
    }

    // The deleter of the shared_ptr that getConnection gave out.
    method ReturnConnection(pcon: Connection, now: int)
      requires Valid() && pcon in leased && clock <= now
      modifies this`connectionQue, this`leased, this`clock, pcon
      ensures Valid() && View() == After(config, old(View()), Return(pcon, now))
      ensures pcon.aliveTime == now && connectionQue == old(connectionQue) + [pcon] && pcon !in leased
    {
      ghost var was := View();
      Safety.ReturnKeeps(config, was, pcon, now);
      assert forall i :: 0 <= i < |connectionQue| ==> was.idle[i].conn == connectionQue[i] != pcon;
      pcon.RefreshAliveTime(now);
      leased := leased - {pcon};
      connectionQue := connectionQue + [pcon];
      clock := now;
      assert View().idle == was.idle + [Idle(pcon, now)];
    }

    // The scanner's turn, with the clock readings it may take: it leaves no expired connection,
    // unless it has come down to the initial size.
    method ScanConnections(readings: seq<int>)
      requires Valid() && |connectionQue| <= |readings| && Ascending(readings, clock)
      modifies this`connectionQue, this`connectionCnt, this`deleted, this`clock
      ensures Valid() && View() == After(config, old(View()), Scan(readings))
      ensures connectionCnt > config.initSize ==>
                forall i :: 0 <= i < |connectionQue| ==>
                  clock - connectionQue[i].aliveTime < config.maxIdleTime * 1_000_000_000
    {
      hide Evicted, After;
      ghost var was := View();
      Safety.ScanKeeps(config, was, readings);
      Safety.ScanLeavesNoneExpired(config, was, readings);
      EvictExpired(readings);
      assert forall i :: 0 <= i < |connectionQue| ==> View().idle[i].since == connectionQue[i].aliveTime;
    }

    method EvictExpired(readings: seq<int>)
      requires Safety.Sorted(View().idle, clock) && |connectionQue| <= |readings| && Ascending(readings, clock)
      modifies this`connectionQue, this`connectionCnt, this`deleted, this`clock
      ensures View() == After(config, old(View()), Scan(readings))
    {
      hide Evicted, Expired, After, Safety.Sorted, Ascending, Safety.Upto;
      ghost var was := View();
      Safety.UptoNothing(was, readings);
      var i := 0;
      while connectionCnt > config.initSize && connectionQue != []
        invariant i <= |was.idle| && View() == Safety.Upto(was, readings, i)
        invariant Evicted(config, was.idle, was.cnt, readings) >= i
        decreases |connectionQue|
      {
        Safety.NextLook(config, was, readings, i);
        var evicted := LookAtFront(readings[i]);
        if !evicted {
          Safety.StopsAt(config, was, readings, i);
          return;
        }
        i := i + 1;
      }
      Safety.EndsAt(config, was, readings, i);
    }

    // Deletes the connection in front, if it has been idle for too long.
    method LookAtFront(now: int) returns (evicted: bool)
      requires connectionQue != [] && connectionQue[0].aliveTime <= now
      modifies this`connectionQue, this`connectionCnt, this`deleted, this`clock
      ensures evicted == Expired(config, old(View()).idle[0].since, now)
      ensures evicted == (now - old(connectionQue[0].aliveTime) >= config.maxIdleTime * 1_000_000_000)
      ensures var was := old(View());
              View() == if evicted then was.(idle := was.idle[1..], cnt := was.cnt - 1,
                                             deleted := was.deleted + {was.idle[0].conn}, clock := now)
                        else was.(clock := now)
    {
      ghost var was := View();
      var p := connectionQue[0];
      var alive := p.GetAliveTime(now);
      clock := now;
      evicted := alive >= config.maxIdleTime * 1000;
      if evicted {
        connectionQue := connectionQue[1..];
        connectionCnt := connectionCnt - 1;
        deleted := deleted + {p};
        assert View().idle == was.idle[1..];
      }
    }
  }
}
