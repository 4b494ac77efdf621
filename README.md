# BinderPoolDemo in Dafny

A model of the two pieces of the BinderPool sample that carry behaviour of their own:

- **SecurityCenterImpl** (`security_center.dfy`, module `SecurityCenter`): the toy cipher. `encrypt` copies
  the string into a `char[]` and XORs every element in place with the key `'w'` (0x77); `decrypt` calls
  `encrypt`. A Java string is a sequence of UTF-16 code units (`bv16`). `Encrypt` is a method over an
  array with a `for` loop, like the source. It is proved equal to the recursive function `Xored`. The
  involution, the round trip, length preservation and position-wise independence are lemmas about `Xored`.
  Java's `chars[i] ^= SECRET_CODE` promotes both chars to `int`, XORs them and casts back to `char`.
  The model writes out each of these steps (`IntXor`, `NarrowToChar`) and proves that the narrowing
  loses nothing.
- **BinderPool** (`binder_pool.dfy`, module `BinderPool`): the connection pool on the client side and the
  code-to-service switch on the server side.
  - `Statics` holds the static `sInstance` slot, because Dafny has no static mutable fields. Its `GetInstance`
    builds the pool once and returns that same pool on every later call.
  - `BinderPool` has the fields `mBinderPool` (the connection, or null) and `mCountDownLatch` (a
    `CountDownLatch` object whose count is a plain counter).
  - Its methods are the constructor, `ConnectBinderPoolService`, the two platform callbacks
    `OnServiceConnected` and `BinderDied`, and the client `QueryBinder`. The callbacks are ordinary method
    calls, made one at a time. The remote failure of the delegated call is an explicit `remoteFails`
    argument.
  - Each method is tied to a pure function of `PoolView`, the abstract state: connected or not, the
    latch count, and a ghost count of connect attempts. The constructor yields `CONSTRUCTED`,
    `ConnectBinderPoolService` follows `AfterConnect`, the callbacks follow `AfterServiceConnected` and
    `AfterBinderDied`, and `QueryBinder` answers as `ClientQuery` says.
  - `Replay` runs any sequence of callbacks from the constructed state. The lemmas about it show three
    things: the pool stays consistent (latch released exactly when connected); every death starts exactly
    one new attempt; and after the last reconnection a query for a registered code succeeds.

Three behaviours of the code worth noting:
- the cipher works on 16-bit `char`s, not bytes;
- `binderDied` has no null check on `mBinderPool`. The unlink at BinderPool.java line 65 stops a repeat
  notice for the same binder. The model excludes a notice that arrives without a connection;
- a connection that never comes leaves the latch unreleased. The first `getInstance` caller then blocks
  forever inside the constructor's `await`. Every later caller blocks too, on the class lock, and so does
  `binderDied`.

## Model

| member | source | states |
|---|---|---|
| `SecurityCenter.IntXor` | app/src/main/java/org/wangchenlong/binderpooldemo/SecurityCenterImpl.java:17 | the int-promoted XOR of two chars is below 2^16 and equals their 16-bit XOR, zero-extended |
| `SecurityCenter.NarrowToChar` | app/src/main/java/org/wangchenlong/binderpooldemo/SecurityCenterImpl.java:17 | the `(char)` cast keeps the low 16 bits, and leaves a value below 2^16 unchanged |
| `SecurityCenter.CompoundXor` | app/src/main/java/org/wangchenlong/binderpooldemo/SecurityCenterImpl.java:17 | `c ^= k` on chars cannot overflow: the result is exactly the 16-bit XOR |
| `SecurityCenter.Xored` | app/src/main/java/org/wangchenlong/binderpooldemo/SecurityCenterImpl.java:14-20 | the ciphertext has exactly as many code units as the input |
| `SecurityCenter.XoredAt` | app/src/main/java/org/wangchenlong/binderpooldemo/SecurityCenterImpl.java:16-18 | position i of the ciphertext is position i of the input XOR 0x77 |
| `SecurityCenter.XoredConcat` | app/src/main/java/org/wangchenlong/binderpooldemo/SecurityCenterImpl.java:16-18 | positions change independently: the ciphertext of a concatenation is the concatenation of the ciphertexts |
| `SecurityCenter.XoredInvolution` | app/src/main/java/org/wangchenlong/binderpooldemo/SecurityCenterImpl.java:14-20 | encrypting twice gives back every input, the empty string included |
| `SecurityCenter.XoredInjective` | app/src/main/java/org/wangchenlong/binderpooldemo/SecurityCenterImpl.java:14-24 | two strings with the same ciphertext are equal |
| `SecurityCenter.XoredChangesEveryUnit` | app/src/main/java/org/wangchenlong/binderpooldemo/SecurityCenterImpl.java:12-18 | with the non-zero key 'w', every code unit changes, so no non-empty string is its own ciphertext |
| `SecurityCenter.Encrypt` | app/src/main/java/org/wangchenlong/binderpooldemo/SecurityCenterImpl.java:14-20 | the in-place array loop yields a string of the same length whose every unit is the input's XOR 0x77, i.e. `Xored(content)` |
| `SecurityCenter.Decrypt` | app/src/main/java/org/wangchenlong/binderpooldemo/SecurityCenterImpl.java:22-24 | decrypt computes the same transform as encrypt and returns the plaintext of any ciphertext |
| `SecurityCenter.EncryptThenDecrypt` | app/src/main/java/org/wangchenlong/binderpooldemo/MainActivity.java:66-70 | the client's encrypt-then-decrypt gives back the message, and a non-empty message's ciphertext differs from it |
| `SecurityCenter.SampleMessageRoundTrip` | app/src/main/java/org/wangchenlong/binderpooldemo/MainActivity.java:66-70 | for "Hello, I am Spike!" the ciphertext has 18 units, starts with '?', differs from the message and decrypts back to it |
| `BinderPool.CodeOf` | app/src/main/java/org/wangchenlong/binderpooldemo/BinderPool.java:22-23 | every service kind has one of the two compiled-in codes |
| `BinderPool.ServiceFor` | app/src/main/java/org/wangchenlong/binderpooldemo/BinderPool.java:115-128 | the server produces a service exactly for codes 0 and 1 and null for every other code |
| `BinderPool.ServiceForCodeOf` | app/src/main/java/org/wangchenlong/binderpooldemo/BinderPool.java:22-23 | a code yields a kind exactly when it is that kind's code, so the two codes are distinct and name one kind each |
| `BinderPool.BinderPoolImpl.QueryBinder` | app/src/main/java/org/wangchenlong/binderpooldemo/BinderPool.java:115-128 | code 0 gives a new Compute object, code 1 a new SecurityCenter object, any other code null; never fails |
| `BinderPool.Binder.constructor` | app/src/main/java/org/wangchenlong/binderpooldemo/BinderPool.java:119-122 | `new ComputeImpl()` / `new SecurityCenterImpl()`: a new service object of the requested kind |
| `BinderPool.CountDownLatch.constructor` | app/src/main/java/org/wangchenlong/binderpooldemo/BinderPool.java:51 | a new latch holds the count it was created with |
| `BinderPool.CountDownLatch.CountDown` | app/src/main/java/org/wangchenlong/binderpooldemo/BinderPool.java:80 | counting down decrements the count and stops at zero |
| `BinderPool.AfterConnect` | app/src/main/java/org/wangchenlong/binderpooldemo/BinderPool.java:50-51 | an attempt started without a connection leaves the pool consistent: pending, with its latch not yet released |
| `BinderPool.AfterServiceConnected` | app/src/main/java/org/wangchenlong/binderpooldemo/BinderPool.java:73-81 | after the connection callback the pool is connected and a latch of count at most one is released |
| `BinderPool.AfterBinderDied` | app/src/main/java/org/wangchenlong/binderpooldemo/BinderPool.java:63-68 | after the death of a live connection the pool is consistent again: no connection, with a new attempt pending |
| `BinderPool.CallbacksPreserveConsistent` | app/src/main/java/org/wangchenlong/binderpooldemo/BinderPool.java:63-81 | both callbacks keep "latch released exactly when connected" |
| `BinderPool.ReplayConsistent` | app/src/main/java/org/wangchenlong/binderpooldemo/BinderPool.java:62-86 | any sequence of callbacks from a consistent state ends in a consistent state |
| `BinderPool.ReplayAttempts` | app/src/main/java/org/wangchenlong/binderpooldemo/BinderPool.java:62-68 | every death notice starts exactly one new connect attempt and no other callback starts one |
| `BinderPool.ReplayLast` | app/src/main/java/org/wangchenlong/binderpooldemo/BinderPool.java:62-86 | the pool is connected exactly when the last callback was a connection, however many deaths came before |
| `BinderPool.ClientQuery` | app/src/main/java/org/wangchenlong/binderpooldemo/BinderPool.java:94-105 | a query yields a service only when connected and the remote call does not fail, and then it is the server's answer |
| `BinderPool.QueryAfterReconnect` | app/src/main/java/org/wangchenlong/binderpooldemo/BinderPool.java:94-105 | once the latest callback reconnected the pool, a query for either registered code yields that code's service |
| `BinderPool.BinderPool.constructor` | app/src/main/java/org/wangchenlong/binderpooldemo/BinderPool.java:32-35 | a new pool has no connection and a fresh count-one latch for its first attempt |
| `BinderPool.BinderPool.ConnectBinderPoolService` | app/src/main/java/org/wangchenlong/binderpooldemo/BinderPool.java:50-51 | called only without a connection, every attempt installs a fresh latch of count one, leaves the connection absent and restores the invariant, following `AfterConnect` |
| `BinderPool.BinderPool.OnServiceConnected` | app/src/main/java/org/wangchenlong/binderpooldemo/BinderPool.java:73-81 | the connection is stored before the same latch is counted down to zero, so a released latch means a connection is present |
| `BinderPool.BinderPool.BinderDied` | app/src/main/java/org/wangchenlong/binderpooldemo/BinderPool.java:63-68 | the dead connection is cleared and a new attempt with a fresh count-one latch starts |
| `BinderPool.BinderPool.QueryBinder` | app/src/main/java/org/wangchenlong/binderpooldemo/BinderPool.java:94-105 | null without a connection (no remote call) or on a remote failure, otherwise the server's fresh answer; no field changes and nothing is thrown |
| `BinderPool.Statics.constructor` | app/src/main/java/org/wangchenlong/binderpooldemo/BinderPool.java:27 | the process starts with no pool instance |
| `BinderPool.Statics.GetInstance` | app/src/main/java/org/wangchenlong/binderpooldemo/BinderPool.java:38-47 | after any call sInstance is set and the pool it returns satisfies the pool invariant; a later call returns the same pool, untouched, without constructing; exactly one pool is ever constructed |
| `BinderPool.QueryThroughInstance` | app/src/main/java/org/wangchenlong/binderpooldemo/MainActivity.java:99-100 | a caller that fetches the pool and queries it gets the answer `ClientQuery` gives for that pool's state, and the shared pool stays valid |
| `BinderPool.ReconnectScenario` | app/src/main/java/org/wangchenlong/binderpooldemo/MainActivity.java:63-64 | two callers share one pool, and after connect, death and reconnect a security-center query succeeds |

## Left out

`BinderPoolImpl`'s constructor (BinderPool.java lines 111-113) is an empty stand-in with no contract: the
server object has no state.

- Android binding (`bindService`, `Intent`, `Context`, `BIND_AUTO_CREATE`): platform I/O. `GetInstance` takes
  no context, and the pool keeps no `mContext`.
- `CountDownLatch.await` and its `InterruptedException` path. This is thread blocking; the latch is only a
  counter, and a released latch is stated as the invariant "count zero exactly when connected".
- `volatile`, `synchronized` and double-checked locking are left out. Only the sequential
  construct-once behaviour is modelled; concurrent first calls are not.
- `linkToDeath`, `unlinkToDeath`, `Stub.asInterface` and `asBinder` are foreign platform calls. The proxy
  is the server object itself, and the caught `RemoteException` of `linkToDeath` changes no field.
- `onServiceDisconnected` has an empty body and changes nothing, so it has no counterpart.
- BinderPool.BinderPool.BinderDied: requires a live connection. The source dereferences `mBinderPool`
  without a check, and the platform only delivers the death of the binder the recipient was linked to.
  It returns with the new attempt pending. The source's `binderDied` returns only once
  `onServiceConnected` has released the new latch (or blocks forever).
- BinderPool.Statics.GetInstance: returns the pool with its first attempt still pending. The source
  assigns `sInstance` and returns only after the constructor's `await`, so its first caller always gets a
  connected pool. In the model a caller must call `OnServiceConnected` itself before a query can succeed,
  as `ReconnectScenario` does. The same holds for `BinderPool.BinderPool.constructor`.
- BinderPool.BinderPool.QueryBinder: requires the pool's invariant, as the two callbacks do. The source
  itself checks nothing beyond `mBinderPool != null`. `GetInstance` hands every caller a pool that
  satisfies it.
- BinderPool.BinderPool.ConnectBinderPoolService: requires that there is no connection. The method is
  private and is only called from the constructor and from `binderDied` after line 66 clears the
  connection.
- `encrypt(null)` throws a `NullPointerException` at `content.toCharArray()`. A `JString` cannot be null,
  so that path is not modelled. The logging side effects (`Log.e` and `printStackTrace` at
  BinderPool.java lines 57, 64, 78 and 101) are not modelled either; they change no state.
- The Compute service and its `add` are not part of this model. Compute is only a kind of service object
  produced by dispatch.
- Surrogate pairs and the conversion between Java's `String` and text: a string is taken to be its
  sequence of UTF-16 code units. The sample message is written out as code units.
- The UI of `MainActivity` (threads, `Handler`, `Message`) and the service glue of `BinderPoolService` are
  left out.
