/** `tcp_proxy_server`: the relay listener the hbox opens for a media device. It owns a
    pool of I/O workers and hands each accepted connection to the next worker in turn.
    Sockets and the acceptor are abstract: an accept outcome is a parameter. */
module ProxyServer {
  import opened Wrappers

  /** What a listener is created with: the port it listens on and where it forwards. */
  datatype ListenerConfig = ListenerConfig(listenPort: int, forwardIP: string, forwardPort: int)

  /** A `tcp_connection` as the server creates it: the worker it runs on and its target. */
  datatype Connection = Connection(worker: nat, forwardIP: string, forwardPort: int)

  /** `push_back(front())` then `pop_front()`: the front worker moves to the back. */
  function Turn(q: seq<nat>): (t: seq<nat>)
    requires |q| > 0
    ensures |t| == |q|
  {
    q[1..] + [q[0]]
  }

  /** The pool turned `r` times. */
  function Rotate(pool: seq<nat>, r: nat): (q: seq<nat>)
    requires |pool| > 0
    ensures |q| == |pool|
  {
    if r == 0 then pool else Turn(Rotate(pool, r - 1))
  }

  /** `k mod n`, counted up one step at a time (wrapping to 0 after `n - 1`). */
  function Wrap(k: nat, n: nat): (i: nat)
    requires n > 0
    ensures i < n
  {
    if k == 0 then 0 else if Wrap(k - 1, n) + 1 < n then Wrap(k - 1, n) + 1 else 0
  }

  /** After `r` turns the pool starts at worker `r mod n` and wraps around. */
  lemma {:induction false} RotateIsSplit(pool: seq<nat>, r: nat)
    requires |pool| > 0
    ensures Rotate(pool, r) == pool[Wrap(r, |pool|)..] + pool[..Wrap(r, |pool|)]
    ensures Rotate(pool, r)[0] == pool[Wrap(r, |pool|)]
  {
    var n := |pool|;
    if r > 0 {
      RotateIsSplit(pool, r - 1);
      var i := Wrap(r - 1, n);
      var q := Rotate(pool, r - 1);
      assert q[0] == pool[i];
      assert q[1..] == pool[i + 1..] + pool[..i];
      assert Rotate(pool, r) == pool[i + 1..] + (pool[..i] + [pool[i]]);
      if i + 1 < n {
        assert pool[..i] + [pool[i]] == pool[..i + 1];
      } else {
        assert pool[..i] + [pool[i]] == pool;
      }
    }
  }

  class TcpProxyServer {
    const config: ListenerConfig
    /** The worker pool as given to the constructor. */
    ghost const initialPool: seq<nat>
    /** `io_services_`, front first. */
    var ioServices: seq<nat>
    /** The connection waiting in `async_accept`, if an accept is scheduled. */
    var pending: Option<Connection>
    /** Connections that were accepted and started, oldest first. */
    var accepted: seq<Connection>

    ghost predicate Valid()
      reads this
    {
      && |initialPool| > 0
      && ioServices == Rotate(initialPool, |accepted| + 1)
      && (pending.Some? ==> pending.value == Connection(ioServices[0], config.forwardIP, config.forwardPort))
      && forall k :: 0 <= k < |accepted| ==>
           accepted[k] == Connection(initialPool[Wrap(k + 1, |initialPool|)], config.forwardIP, config.forwardPort)
    }

    /** The constructor records the port and the target and schedules the first accept. */
    constructor (pool: seq<nat>, listeningPort: int, forwardIP: string, forwardPort: int)
      requires |pool| > 0
      ensures Valid()
      ensures config == ListenerConfig(listeningPort, forwardIP, forwardPort)
      ensures initialPool == pool && accepted == []
      ensures pending == Some(Connection(pool[Wrap(1, |pool|)], forwardIP, forwardPort))
    {
      config := ListenerConfig(listeningPort, forwardIP, forwardPort);
      initialPool := pool;
      accepted := [];
      new;
      RotateIsSplit(pool, 1);
      ioServices := pool[1..] + [pool[0]];
      pending := Some(Connection(ioServices[0], forwardIP, forwardPort));
    }

    /** `handle_accept`: on success the waiting connection is started and the next accept
        is scheduled on the next worker; on an error nothing more is scheduled. */
    method HandleAccept(error: bool)
      requires Valid() && pending.Some?
      modifies this
      ensures Valid()
      ensures !error ==> accepted == old(accepted) + [old(pending.value)] && pending.Some?
      ensures error ==> accepted == old(accepted) && pending.None? && ioServices == old(ioServices)
    {
      if !error {
        RotateIsSplit(initialPool, |accepted| + 1);
        RotateIsSplit(initialPool, |accepted| + 2);
        accepted := accepted + [pending.value];
        ioServices := ioServices[1..] + [ioServices[0]];
        pending := Some(Connection(ioServices[0], config.forwardIP, config.forwardPort));
      } else {
        pending := None;
      }
    }
  }

  /** The k-th accepted connection (from 0) runs on worker `(k + 1) mod n` (`Wrap(k + 1, n)`) of the pool and
      forwards to the configured target. */
  lemma RoundRobin(s: TcpProxyServer, k: nat)
    requires s.Valid() && k < |s.accepted|
    ensures s.accepted[k].worker == s.initialPool[Wrap(k + 1, |s.initialPool|)]
    ensures s.accepted[k].forwardIP == s.config.forwardIP && s.accepted[k].forwardPort == s.config.forwardPort
  {
  }

  /** The pool is only ever rotated: same length, same workers. */
  lemma PoolIsPermuted(s: TcpProxyServer)
    requires s.Valid()
    ensures |s.ioServices| == |s.initialPool| && multiset(s.ioServices) == multiset(s.initialPool)
  {
    var pool := s.initialPool;
    var i := Wrap(|s.accepted| + 1, |pool|);
    RotateIsSplit(pool, |s.accepted| + 1);
    assert pool == pool[..i] + pool[i..];
  }

  /** Three accepts with no error on a pool of two alternate the workers. */
  method AlternatingAccepts(w0: nat, w1: nat, port: int, ip: string, fport: int) returns (s: TcpProxyServer)
    ensures s.Valid()
    ensures |s.accepted| == 3
    ensures s.accepted[0].worker == w1 && s.accepted[1].worker == w0 && s.accepted[2].worker == w1
  {
    s := new TcpProxyServer([w0, w1], port, ip, fport);
    s.HandleAccept(false);
    s.HandleAccept(false);
    s.HandleAccept(false);
    RoundRobin(s, 0);
    RoundRobin(s, 1);
    RoundRobin(s, 2);
  }
}
