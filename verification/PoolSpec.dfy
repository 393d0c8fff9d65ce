/**
 The connection pool between two critical sections: who holds which connection, and since
 when the idle ones have been idle.  Borrowers, returners, the producer and the scanner
 take turns in any order; the clock is steady.
 */
module PoolSpec {
  import opened Bytes

  // The sizes and the idle time, in seconds, of the configuration file.
  datatype Config = Config(initSize: int, maxSize: int, maxIdleTime: int)

  datatype Idle<C> = Idle(conn: C, since: int)   // nanoseconds

  datatype Pool<C> = Pool(
    idle: seq<Idle<C>>,   // m_connectionQue
    leased: set<C>,
    deleted: set<C>,
    cnt: int,             // m_connectionCnt
    clock: int)           // the latest reading so far

  // getAliveTime() >= m_maxIdleTime * 1000, in whole milliseconds.
  predicate Expired(config: Config, since: int, now: int) {
    (now - since) / 1_000_000 >= config.maxIdleTime * 1000
  }

  // ----- The critical sections -----

  datatype Step<C> =
    | Produce(conn: C, now: int)
    | Get
    | Return(conn: C, now: int)
    | Scan(readings: seq<int>)   // one clock reading for each connection it may look at

  function Empty<C>(): Pool<C> { Pool([], {}, {}, 0, 0) }

  // `new Connection` and the push, in the constructor and in the producer.
  function Add<C>(p: Pool<C>, conn: C, now: int): Pool<C> {
    p.(idle := p.idle + [Idle(conn, now)], cnt := p.cnt + 1, clock := now)
  }

  // How many connections a scan evicts from the front.
  function Evicted<C>(config: Config, idle: seq<Idle<C>>, cnt: int, readings: seq<int>): (k: nat)
    requires |idle| <= |readings|
    ensures k <= |idle|
  {
    if cnt > config.initSize && idle != [] && Expired(config, idle[0].since, readings[0])
    then 1 + Evicted(config, idle[1..], cnt - 1, readings[1..]) else 0
  }

  // The connections of the first k in the queue.
  function First<C>(idle: seq<Idle<C>>, k: nat): set<C>
    requires k <= |idle|
  {
    set i | 0 <= i < k :: idle[i].conn
  }

  // The readings that a scan takes, one for each connection it looks at.
  function Looks<C>(config: Config, p: Pool<C>, readings: seq<int>): (n: nat)
    requires |p.idle| <= |readings|
    ensures n <= |p.idle|
  {
    var k := Evicted(config, p.idle, p.cnt, readings);
    if k < |p.idle| && p.cnt - k > config.initSize then k + 1 else k
  }

  function After<C>(config: Config, p: Pool<C>, step: Step<C>): Pool<C>
    requires Allowed(config, p, step)
  {
    match step
    case Produce(conn, now) => if p.cnt < config.maxSize then Add(p, conn, now) else p
    case Get => p.(idle := p.idle[1..], leased := p.leased + {p.idle[0].conn})
    case Return(conn, now) =>
      p.(idle := p.idle + [Idle(conn, now)], leased := p.leased - {conn}, clock := now)
    case Scan(readings) =>
      var k := Evicted(config, p.idle, p.cnt, readings);
      var n := Looks(config, p, readings);
      p.(idle := p.idle[k..], cnt := p.cnt - k, deleted := p.deleted + First(p.idle, k),
         clock := if n == 0 then p.clock else readings[n - 1])
  }

  predicate Ascending(s: seq<int>, from: int) {
    forall i :: 0 <= i < |s| ==> from <= s[i] && (i > 0 ==> s[i - 1] <= s[i])
  }

  // The producer waits for an empty queue, a borrower for a nonempty one; a connection is
  // returned by the one shared_ptr that holds it; the clock never runs back.
  predicate Allowed<C>(config: Config, p: Pool<C>, step: Step<C>) {
    match step
    case Produce(conn, now) => p.idle == [] && conn !in p.leased + p.deleted && p.clock <= now
    case Get => p.idle != []
    case Return(conn, now) => conn in p.leased && p.clock <= now
    case Scan(readings) => |p.idle| <= |readings| && Ascending(readings, p.clock)
  }
}
