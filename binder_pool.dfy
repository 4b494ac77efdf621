/** Model of BinderPool: one shared connection to a remote pool service, handed
    out by a lazily created singleton, re-established when the remote side dies,
    and used to fetch sub-services by small integer codes.

    Callbacks from the platform (service connected, binder died) are ordinary
    method calls here, made one at a time; the count-down latch is a counter. */
module BinderPool {

  datatype Option<T> = None | Some(value: T)

  /** The two service codes both sides agree on. */
  const BINDER_COMPUTE: int := 0
  const BINDER_SECURITY_CENTER: int := 1

  /** The sub-services the remote pool can create. */
  datatype ServiceKind = Compute | SecurityCenter

  /** The code a client passes to obtain a service of the given kind. */
  function CodeOf(kind: ServiceKind): (code: int)
    ensures code == BINDER_COMPUTE || code == BINDER_SECURITY_CENTER
  {
    match kind
    case Compute => BINDER_COMPUTE
    case SecurityCenter => BINDER_SECURITY_CENTER
  }

  /** The kind of service the server's switch creates for a code; None where it
      falls through to the default branch and answers null. */
  function ServiceFor(code: int): (r: Option<ServiceKind>)
    ensures r.Some? <==> code == BINDER_COMPUTE || code == BINDER_SECURITY_CENTER
  {
    if code == BINDER_COMPUTE then Some(Compute)
    else if code == BINDER_SECURITY_CENTER then Some(SecurityCenter)
    else None
  }

  /** Each code names exactly one kind: dispatch and CodeOf are inverse to each
      other. */
  lemma ServiceForCodeOf(code: int, kind: ServiceKind)
    ensures ServiceFor(code) == Some(kind) <==> code == CodeOf(kind)
  {
    match kind
    case Compute =>
    case SecurityCenter =>
  }

  /** An IBinder handed out by the server: a newly allocated service object. */
  class Binder {
    const kind: ServiceKind

    constructor (kind: ServiceKind)
      ensures this.kind == kind
    {
      this.kind := kind;
    }
  }

  /** The server side, BinderPoolImpl: a stateless factory. */
  class BinderPoolImpl {

    constructor ()
    {
    }

    /** Code 0 yields a new Compute service, code 1 a new SecurityCenter service,
        every other code null. Nothing is thrown. */
    method QueryBinder(binderCode: int) returns (binder: Binder?)
      ensures binder == null <==> ServiceFor(binderCode) == None
      ensures binder != null ==> fresh(binder) && ServiceFor(binderCode) == Some(binder.kind)
    {
      binder := null;
      if binderCode == BINDER_COMPUTE {
        binder := new Binder(Compute);
      } else if binderCode == BINDER_SECURITY_CENTER {
        binder := new Binder(SecurityCenter);
      }
    }
  }

  /** java.util.concurrent.CountDownLatch, without the blocking `await`. */
  class CountDownLatch {
    var count: nat

    constructor (count: nat)
      ensures this.count == count
    {
      this.count := count;
    }

    /** Decrements the count; a count already at zero stays there. */
    method CountDown()
      modifies this
      ensures count == if old(count) == 0 then 0 else old(count) - 1
    {
      if count > 0 {
        count := count - 1;
      }
    }
  }

  /** What the pool's fields say: whether `mBinderPool` is set, the count of the
      current latch, and how many connect attempts have been started. */
  datatype PoolView = PoolView(connected: bool, latchCount: nat, attempts: nat)

  /** The view right after the constructor, which makes the first attempt. */
  const CONSTRUCTED: PoolView := PoolView(false, 1, 1)

  /** The states the pool can be in between callbacks: either an attempt is
      pending (no connection, latch at one) or the latch has been released and
      the connection is present. */
  predicate Consistent(v: PoolView) {
    v.attempts >= 1 && v.latchCount <= 1 && (v.connected <==> v.latchCount == 0)
  }

  /** connectBinderPoolService: a fresh latch of count one for a new attempt.
      Started without a connection, it leaves the pool in the pending state. */
  function AfterConnect(v: PoolView): (w: PoolView)
    ensures !v.connected ==> Consistent(w)
  {
    v.(latchCount := 1, attempts := v.attempts + 1)
  }

  /** onServiceConnected: store the connection, then count the latch down. */
  function AfterServiceConnected(v: PoolView): (w: PoolView)
    ensures w.connected && w.attempts == v.attempts
    ensures v.latchCount <= 1 ==> w.latchCount == 0
  {
    v.(connected := true, latchCount := if v.latchCount == 0 then 0 else v.latchCount - 1)
  }

  /** binderDied: drop the connection and start a new attempt. Whatever state
      the dead connection left, the pool is consistent afterwards. */
  function AfterBinderDied(v: PoolView): (w: PoolView)
    requires v.connected
    ensures Consistent(w)
  {
    AfterConnect(v.(connected := false))
  }

  /** Every callback keeps the pool consistent. */
  lemma CallbacksPreserveConsistent(v: PoolView)
    requires Consistent(v)
    ensures Consistent(AfterServiceConnected(v))
    ensures v.connected ==> Consistent(AfterBinderDied(v))
  {
  }

  /** The platform callbacks the pool receives. */
  datatype Callback = ServiceConnected | BinderDied

  /** The view after a sequence of callbacks, or None if a death notice arrives
      while `mBinderPool` is null (the source would dereference null there; the
      death recipient is only ever linked to the live connection). */
  function Replay(v: PoolView, cs: seq<Callback>): Option<PoolView>
    decreases |cs|
  {
    if cs == [] then Some(v)
    else match cs[0]
      case ServiceConnected => Replay(AfterServiceConnected(v), cs[1..])
      case BinderDied => if v.connected then Replay(AfterBinderDied(v), cs[1..]) else None
  }

  /** The number of death notices in a sequence of callbacks. */
  function Deaths(cs: seq<Callback>): nat
  {
    if cs == [] then 0 else (if cs[0] == BinderDied then 1 else 0) + Deaths(cs[1..])
  }

  /** Any sequence of callbacks keeps the pool consistent. */
  lemma {:induction false} ReplayConsistent(v: PoolView, cs: seq<Callback>)
    requires Consistent(v)
    ensures Replay(v, cs).Some? ==> Consistent(Replay(v, cs).value)
    decreases |cs|
  {
    if cs != [] {
      CallbacksPreserveConsistent(v);
      match cs[0]
      case ServiceConnected => ReplayConsistent(AfterServiceConnected(v), cs[1..]);
      case BinderDied =>
        if v.connected {
          ReplayConsistent(AfterBinderDied(v), cs[1..]);
        }
    }
  }

  /** Each death notice starts exactly one new connect attempt, and nothing else
      does. */
  lemma {:induction false} ReplayAttempts(v: PoolView, cs: seq<Callback>)
    ensures Replay(v, cs).Some? ==> Replay(v, cs).value.attempts == v.attempts + Deaths(cs)
    decreases |cs|
  {
    if cs != [] {
      match cs[0]
      case ServiceConnected => ReplayAttempts(AfterServiceConnected(v), cs[1..]);
      case BinderDied =>
        if v.connected {
          ReplayAttempts(AfterBinderDied(v), cs[1..]);
        }
    }
  }

  /** The pool is connected exactly when the last callback was a connection:
      a connection restores it after any number of deaths, a death removes it. */
  lemma {:induction false} ReplayLast(v: PoolView, cs: seq<Callback>)
    requires cs != [] && Replay(v, cs).Some?
    ensures Replay(v, cs).value.connected <==> cs[|cs| - 1] == ServiceConnected
    decreases |cs|
  {
    if |cs| > 1 {
      assert cs[1..][|cs[1..]| - 1] == cs[|cs| - 1];
      match cs[0]
      case ServiceConnected => ReplayLast(AfterServiceConnected(v), cs[1..]);
      case BinderDied => ReplayLast(AfterBinderDied(v), cs[1..]);
    }
  }

  /** What the client's queryBinder answers in a given state: nothing without a
      connection or when the remote call fails, otherwise the server's answer. */
  function ClientQuery(v: PoolView, binderCode: int, remoteFails: bool): (r: Option<ServiceKind>)
    ensures r.Some? ==> v.connected && !remoteFails && r == ServiceFor(binderCode)
  {
    if !v.connected || remoteFails then None else ServiceFor(binderCode)
  }

  /** When the latest callback connected the pool, a query for either registered
      code that does not meet a remote failure yields that code's service, however
      many deaths and reconnections came before. */
  lemma QueryAfterReconnect(cs: seq<Callback>, kind: ServiceKind)
    requires cs != [] && cs[|cs| - 1] == ServiceConnected
    requires Replay(CONSTRUCTED, cs).Some?
    ensures ClientQuery(Replay(CONSTRUCTED, cs).value, CodeOf(kind), false) == Some(kind)
  {
    ReplayLast(CONSTRUCTED, cs);
    ServiceForCodeOf(CodeOf(kind), kind);
  }

  /** The client-side pool. `attempts` is a ghost count of connect attempts. */
  class BinderPool {
    var mBinderPool: BinderPoolImpl?
    var mCountDownLatch: CountDownLatch?
    ghost var attempts: nat

    ghost function View(): PoolView
      reads this, mCountDownLatch
      requires mCountDownLatch != null
    {
      PoolView(mBinderPool != null, mCountDownLatch.count, attempts)
    }

    ghost predicate Valid()
      reads this, mCountDownLatch
    {
      mCountDownLatch != null && Consistent(View())
    }

    /** The private constructor: start the first connect attempt. */
    constructor ()
      ensures Valid() && View() == CONSTRUCTED
      ensures mBinderPool == null && fresh(mCountDownLatch)
    {
      mBinderPool := null;
      mCountDownLatch := null;
      attempts := 0;
      new;
      ConnectBinderPoolService();
    }

    /** connectBinderPoolService, up to binding: install a fresh latch of count
        one. Binding to the remote service and waiting on the latch belong to the
        platform. It is private and runs only while there is no connection: from
        the constructor and from binderDied, after the connection is dropped. */
    method ConnectBinderPoolService()
      requires mBinderPool == null
      modifies this
      ensures fresh(mCountDownLatch) && mCountDownLatch.count == 1
      ensures mBinderPool == old(mBinderPool) && attempts == old(attempts) + 1
      ensures Valid() && View() == PoolView(false, 1, old(attempts) + 1)
      ensures old(mCountDownLatch) != null ==> View() == AfterConnect(old(View()))
    {
      mCountDownLatch := new CountDownLatch(1);
      attempts := attempts + 1;
    }

    /** mBinderPoolConnection.onServiceConnected: remember the connection, then
        release the latch. (Linking the death recipient is a platform call whose
        failure is caught and changes no field.) */
    method OnServiceConnected(service: BinderPoolImpl)
      requires Valid()
      modifies this, mCountDownLatch
      ensures Valid() && mCountDownLatch == old(mCountDownLatch)
      ensures mBinderPool == service && mCountDownLatch.count == 0
      ensures View() == AfterServiceConnected(old(View()))
    {
      mBinderPool := service;
      mCountDownLatch.CountDown();
    }

    /** mDeathRecipient.binderDied: drop the dead connection and start a new
        attempt. */
    method BinderDied()
      requires Valid() && mBinderPool != null
      modifies this
      ensures Valid() && mBinderPool == null
      ensures fresh(mCountDownLatch) && mCountDownLatch.count == 1
      ensures View() == AfterBinderDied(old(View()))
    {
      mBinderPool := null;
      ConnectBinderPoolService();
    }

    /** queryBinder: without a connection, answer null and call nothing remote;
        otherwise delegate, and turn a remote failure into null. Nothing is thrown
        and no field changes. */
    method QueryBinder(binderCode: int, remoteFails: bool) returns (binder: Binder?)
      requires Valid()
      ensures mBinderPool == null || remoteFails ==> binder == null
      ensures binder != null ==> fresh(binder)
      ensures (if binder == null then None else Some(binder.kind)) == ClientQuery(View(), binderCode, remoteFails)
    {
      binder := null;
      if mBinderPool != null {
        if !remoteFails {
          binder := mBinderPool.QueryBinder(binderCode);
        }
      }
    }
  }

  /** The static part of BinderPool: the process-wide `sInstance` slot, with a
      ghost count of how many pools were ever constructed. */
  class Statics {
    var sInstance: BinderPool?
    ghost var constructions: nat

    ghost predicate Valid()
      reads this, sInstance, if sInstance != null then {sInstance.mCountDownLatch} else {}
    {
      constructions == (if sInstance == null then 0 else 1) &&
      (sInstance != null ==> sInstance.Valid())
    }

    /** The process starts with no pool. */
    constructor ()
      ensures Valid() && sInstance == null
    {
      sInstance := null;
      constructions := 0;
    }

    /** getInstance: construct the pool on the first call, then return the same
        pool every time. */
    method GetInstance() returns (pool: BinderPool)
      requires Valid()
      modifies this
      ensures Valid() && sInstance == pool && constructions == 1 && pool.Valid()
      ensures old(sInstance) != null ==> pool == old(sInstance) && unchanged(pool, pool.mCountDownLatch)
      ensures old(sInstance) == null ==> fresh(pool) && fresh(pool.mCountDownLatch) && pool.Valid() && pool.View() == CONSTRUCTED
    {
      if sInstance == null {
        sInstance := new BinderPool();
        constructions := constructions + 1;
      }
      pool := sInstance;
    }
  }

  /** A caller's use of the pool: fetch the process-wide pool, then query it for
      a service by code. */
  method QueryThroughInstance(statics: Statics, binderCode: int, remoteFails: bool)
    returns (pool: BinderPool, binder: Binder?)
    requires statics.Valid()
    modifies statics
    ensures statics.Valid() && pool == statics.sInstance && pool.Valid()
    ensures old(statics.sInstance) != null ==> pool == old(statics.sInstance)
    ensures binder != null ==> fresh(binder)
    ensures (if binder == null then None else Some(binder.kind)) == ClientQuery(pool.View(), binderCode, remoteFails)
  {
    pool := statics.GetInstance();
    binder := pool.QueryBinder(binderCode, remoteFails);
  }

  /** A client session: two callers fetch the pool, the service connects, the
      binder dies and the service connects again; both callers still hold the one
      pool and a query for the security center succeeds. */
  method ReconnectScenario() returns (first: BinderPool, second: BinderPool, binder: Binder?)
    ensures first == second
    ensures binder != null && binder.kind == SecurityCenter
  {
    var statics := new Statics();
    first := statics.GetInstance();
    second := statics.GetInstance();
    var server := new BinderPoolImpl();
    first.OnServiceConnected(server);
    first.BinderDied();
    var none := second.QueryBinder(BINDER_SECURITY_CENTER, false);
    assert none == null;
    var restarted := new BinderPoolImpl();
    first.OnServiceConnected(restarted);
    binder := second.QueryBinder(BINDER_SECURITY_CENTER, false);
  }
}
