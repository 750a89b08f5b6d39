/** Key custodians: two halves of a key unlock a tenant's master key. */
module Custodian {
  import opened Wrappers
  import opened Hex
  import opened Aes

  const KEY_LENGTH := 16

  datatype KeyState = KeyState(key1: Option<string>, key2: Option<string>)

  // `unlocked` maps a tenant in service to its master key; `secrets` is the configuration, fixed at start.
  datatype Global = Global(unlocked: map<string, Bytes>, halves: map<string, KeyState>)

  datatype Config = Config(aead: Aead, secrets: map<string, Bytes>)

  datatype Request = Key1(key: string) | Key2(key: string) | Decrypt

  datatype Reply = Received | Unlocked | UnknownTenant | AlreadyUnlocked | InvalidKey | DecryptingFailed | StartFailed

  function Initial(cf: Config): Global {
    Global(map[], map t | t in cf.secrets :: KeyState(None, None))
  }

  predicate ValidHalf(key: string) {
    Decode(key).Some? && |Decode(key).value| == KEY_LENGTH
  }

  // What the extractors check before a handler runs; the answer when they refuse.
  function Admit(cf: Config, g: Global, t: string, rq: Request): Option<Reply> {
    if t !in cf.secrets then Some(UnknownTenant)
    else if t in g.unlocked then Some(AlreadyUnlocked)
    else if !rq.Decrypt? && !ValidHalf(rq.key) then Some(InvalidKey)
    else None
  }

  // The master key two halves lead to.
  function Joined(cf: Config, t: string, key1: string, key2: string): Option<Bytes> {
    if t !in cf.secrets then None else
    match Decode(key1 + key2)
    case None => None
    case Some(key) =>
      match Decrypted(cf.aead, key, cf.secrets[t])
      case Plain(master) => Some(master)
      case _ => None
  }

  // The handlers, each under the write lock on the halves. `starts`: whether the tenant's services come up.
  function Handle(cf: Config, g: Global, t: string, rq: Request, starts: bool): (Global, Reply) {
    match rq
    case Key1(key) =>
      (if t in g.halves then g.(halves := g.halves[t := g.halves[t].(key1 := Some(key))]) else g, Received)
    case Key2(key) =>
      (if t in g.halves then g.(halves := g.halves[t := g.halves[t].(key2 := Some(key))]) else g, Received)
    case Decrypt =>
      if t !in g.halves then (g, UnknownTenant)
      else if g.halves[t].key1.None? || g.halves[t].key2.None? then
        (g.(halves := g.halves[t := KeyState(None, None)]), DecryptingFailed)
      else
        match Joined(cf, t, g.halves[t].key1.value, g.halves[t].key2.value)
        case None => (g, DecryptingFailed)
        case Some(master) => if starts then (g.(unlocked := g.unlocked[t := master]), Unlocked) else (g, StartFailed)
  }

  // ----- runs: requests are admitted first and handled later, in any order -----

  datatype Server = Server(global: Global, admitted: seq<(string, Request)>, handled: seq<(string, Request)>)

  datatype Event = Arrive(tenant: string, request: Request) | Serve(i: nat, starts: bool)

  function Next(cf: Config, y: Server, e: Event): Server {
    match e
    case Arrive(t, rq) =>
      if Admit(cf, y.global, t, rq).None? then y.(admitted := y.admitted + [(t, rq)]) else y
    case Serve(i, starts) =>
      if i >= |y.admitted| then y else
      var (t, rq) := y.admitted[i];
      Server(Handle(cf, y.global, t, rq, starts).0, y.admitted[..i] + y.admitted[i + 1..], y.handled + [(t, rq)])
  }

  function Run(cf: Config, y: Server, events: seq<Event>): Server
    decreases events
  {
    if events == [] then y else Run(cf, Next(cf, y, events[0]), events[1..])
  }

  function Start(cf: Config): Server {
    Server(Initial(cf), [], [])
  }

  // ----- one handler -----

  // A tenant becomes unlocked exactly by a decrypt with both halves present that open its secret.
  lemma UnlockNeedsBothHalves(cf: Config, g: Global, t: string, rq: Request, starts: bool, u: string)
    requires u !in g.unlocked
    ensures u in Handle(cf, g, t, rq, starts).0.unlocked <==>
            && u == t && rq.Decrypt? && starts && t in g.halves
            && g.halves[t].key1.Some? && g.halves[t].key2.Some?
            && Joined(cf, t, g.halves[t].key1.value, g.halves[t].key2.value).Some?
  {
  }

  // No request of one tenant touches another, and nothing locks a tenant again.
  lemma OthersUntouched(cf: Config, g: Global, t: string, rq: Request, starts: bool, u: string)
    ensures var g' := Handle(cf, g, t, rq, starts).0;
            && g'.halves.Keys == g.halves.Keys
            && (u != t ==> Lookup(g'.halves, u) == Lookup(g.halves, u) && Lookup(g'.unlocked, u) == Lookup(g.unlocked, u))
            && (u in g.unlocked ==> u in g'.unlocked)
  {
  }

  // A decrypt clears the halves exactly when one of them is missing; a refused or a successful one keeps them.
  lemma DecryptClears(cf: Config, g: Global, t: string, starts: bool)
    requires t in g.halves
    ensures var ks, ks' := g.halves[t], Handle(cf, g, t, Decrypt, starts).0.halves[t];
            ks' == if ks.key1.Some? && ks.key2.Some? then ks else KeyState(None, None)
  {
  }

  // ----- whole runs -----

  // A half that is held was submitted, and passed validation.
  ghost predicate HalfKnown(y: Server, t: string, o: Option<string>, first: bool) {
    o.Some? ==> ValidHalf(o.value) && (t, if first then Key1(o.value) else Key2(o.value)) in y.handled
  }

  // The master key in service came out of two submitted halves.
  ghost predicate UnlockKnown(cf: Config, y: Server, t: string, key1: string, key2: string) {
    && (t, Key1(key1)) in y.handled && (t, Key2(key2)) in y.handled && (t, Decrypt) in y.handled
    && ValidHalf(key1) && ValidHalf(key2)
    && Joined(cf, t, key1, key2) == Lookup(y.global.unlocked, t)
  }

  ghost predicate Inv(cf: Config, y: Server) {
    && y.global.halves.Keys == cf.secrets.Keys
    && (forall t :: t in y.global.halves ==>
          HalfKnown(y, t, y.global.halves[t].key1, true) && HalfKnown(y, t, y.global.halves[t].key2, false))
    && (forall r :: r in y.admitted ==> r.0 in cf.secrets && (r.1.Decrypt? || ValidHalf(r.1.key)))
    && (forall t :: t in y.global.unlocked ==> exists key1, key2 :: UnlockKnown(cf, y, t, key1, key2))
  }

  lemma UnlockStaysKnown(cf: Config, y: Server, e: Event, u: string)
    requires Inv(cf, y) && u in Next(cf, y, e).global.unlocked
    ensures exists key1, key2 :: UnlockKnown(cf, Next(cf, y, e), u, key1, key2)
  {
    hide ValidHalf, Joined, Admit;
    var y' := Next(cf, y, e);
    assert forall r :: r in y.handled ==> r in y'.handled;
    if y'.global.unlocked == y.global.unlocked || u != y.admitted[e.i].0 {
      var key1, key2 :| UnlockKnown(cf, y, u, key1, key2);
      assert UnlockKnown(cf, y', u, key1, key2);
    } else {
      var ks := y.global.halves[u];
      assert y.admitted[e.i] in y.admitted;
      assert UnlockKnown(cf, y', u, ks.key1.value, ks.key2.value);
    }
  }

  lemma NextInv(cf: Config, y: Server, e: Event)
    requires Inv(cf, y)
    ensures Inv(cf, Next(cf, y, e))
  {
    hide ValidHalf, Joined, UnlockKnown;
    var y' := Next(cf, y, e);
    forall u | u in y'.global.unlocked ensures exists key1, key2 :: UnlockKnown(cf, y', u, key1, key2) {
      UnlockStaysKnown(cf, y, e, u);
    }
    if e.Serve? && e.i < |y.admitted| {
      assert y.admitted[e.i] in y.admitted;
      assert forall r :: r in y'.handled <==> r in y.handled || r == y.admitted[e.i];
    }
  }

  // In every run a tenant in service stays in service, and its key came out of two halves submitted for it.
  lemma {:induction false} RunInv(cf: Config, y: Server, events: seq<Event>)
    requires Inv(cf, y)
    ensures Inv(cf, Run(cf, y, events))
    ensures y.global.unlocked.Keys <= Run(cf, y, events).global.unlocked.Keys
    decreases events
  {
    hide Inv, Handle, Admit;
    if events != [] {
      var e := events[0];
      NextInv(cf, y, e);
      if e.Serve? && e.i < |y.admitted| {
        forall u ensures u in y.global.unlocked ==> u in Next(cf, y, e).global.unlocked {
          OthersUntouched(cf, y.global, y.admitted[e.i].0, y.admitted[e.i].1, e.starts, u);
        }
      }
      RunInv(cf, Next(cf, y, e), events[1..]);
    }
  }

  lemma UnlockedByTwoHalves(cf: Config, events: seq<Event>, t: string)
    requires t in Run(cf, Start(cf), events).global.unlocked
    ensures exists key1, key2 :: UnlockKnown(cf, Run(cf, Start(cf), events), t, key1, key2)
  {
    hide UnlockKnown, Run;
    RunInv(cf, Start(cf), events);
  }

  // The n-th event of a run serves a decrypt of `t`.
  predicate Decrypts(cf: Config, y: Server, events: seq<Event>, n: nat, t: string) {
    && n < |events| && events[n].Serve?
    && var z := Run(cf, y, events[..n]);
       events[n].i < |z.admitted| && z.admitted[events[n].i] == (t, Decrypt) && t in z.global.halves
  }

  predicate BothHeld(cf: Config, y: Server, events: seq<Event>, n: nat, t: string)
    requires Decrypts(cf, y, events, n, t)
  {
    var ks := Run(cf, y, events[..n]).global.halves[t]; ks.key1.Some? && ks.key2.Some?
  }

  lemma DecryptsLater(cf: Config, y: Server, events: seq<Event>, n: nat, t: string)
    requires events != [] && Decrypts(cf, Next(cf, y, events[0]), events[1..], n, t)
    ensures Decrypts(cf, y, events, n + 1, t)
    ensures BothHeld(cf, y, events, n + 1, t) == BothHeld(cf, Next(cf, y, events[0]), events[1..], n, t)
    ensures Run(cf, y, events[..n + 1]) == Run(cf, Next(cf, y, events[0]), events[1..][..n])
  {
    hide Next;
    assert events[..n + 1][0] == events[0] && events[..n + 1][1..] == events[1..][..n];
  }

  // A tenant that a run puts in service was put there by a decrypt of its own that found both halves, opened its
  // secret with them, and started its services.
  lemma {:induction false} RunUnlocks(cf: Config, y: Server, events: seq<Event>, t: string)
    requires t !in y.global.unlocked && t in Run(cf, y, events).global.unlocked
    ensures exists n: nat :: Decrypts(cf, y, events, n, t) && BothHeld(cf, y, events, n, t) && events[n].starts
                        && var ks := Run(cf, y, events[..n]).global.halves[t];
                           Joined(cf, t, ks.key1.value, ks.key2.value).Some?
    decreases events
  {
    hide Joined, ValidHalf;
    var y' := Next(cf, y, events[0]);
    if t in y'.global.unlocked {
      assert events[..0] == [];
      var (u, rq) := y.admitted[events[0].i];
      UnlockNeedsBothHalves(cf, y.global, u, rq, events[0].starts, t);
      assert Decrypts(cf, y, events, 0, t) && BothHeld(cf, y, events, 0, t);
    } else {
      RunUnlocks(cf, y', events[1..], t);
      var n: nat :| Decrypts(cf, y', events[1..], n, t) && BothHeld(cf, y', events[1..], n, t) && events[1..][n].starts
               && var ks := Run(cf, y', events[1..][..n]).global.halves[t];
                  Joined(cf, t, ks.key1.value, ks.key2.value).Some?;
      DecryptsLater(cf, y, events, n, t);
      assert Decrypts(cf, y, events, n + 1, t) && BothHeld(cf, y, events, n + 1, t);
    }
  }

  function Half(g: Global, t: string, first: bool): Option<string> {
    if t !in g.halves then None else if first then g.halves[t].key1 else g.halves[t].key2
  }

  lemma NextClears(cf: Config, y: Server, e: Event, t: string, first: bool)
    requires Half(y.global, t, first).Some? && Half(Next(cf, y, e).global, t, first).None?
    ensures e.Serve? && e.i < |y.admitted| && y.admitted[e.i] == (t, Decrypt) && t in y.global.halves
    ensures y.global.halves[t].key1.None? || y.global.halves[t].key2.None?
  {
    hide Joined, Admit;
    if e.Serve? && e.i < |y.admitted| {
      var (u, rq) := y.admitted[e.i];
      OthersUntouched(cf, y.global, u, rq, e.starts, t);
      if u == t && rq.Decrypt? && t in y.global.halves { DecryptClears(cf, y.global, t, e.starts); }
    }
  }

  // A half that a run takes away was taken by a decrypt of its own tenant that found one of the two missing.
  lemma {:induction false} RunClears(cf: Config, y: Server, events: seq<Event>, t: string, first: bool)
    requires Half(y.global, t, first).Some? && Half(Run(cf, y, events).global, t, first).None?
    ensures exists n: nat :: Decrypts(cf, y, events, n, t) && !BothHeld(cf, y, events, n, t)
    decreases events
  {
    hide Next;
    var y' := Next(cf, y, events[0]);
    if Half(y'.global, t, first).None? {
      assert events[..0] == [];
      NextClears(cf, y, events[0], t, first);
      assert Decrypts(cf, y, events, 0, t) && !BothHeld(cf, y, events, 0, t);
    } else {
      RunClears(cf, y', events[1..], t, first);
      var n: nat :| Decrypts(cf, y', events[1..], n, t) && !BothHeld(cf, y', events[1..], n, t);
      DecryptsLater(cf, y, events, n, t);
      assert !BothHeld(cf, y, events, n + 1, t);
    }
  }

  // ----- the generator -----

  datatype Printed = Printed(masterKey: string, key1: string, key2: string)

  function Generate(aead: Aead, master: Bytes, custodianKey: Bytes, random: Bytes): Printed
    requires |custodianKey| == KEY_LEN && |random| == NONCE_LEN
  {
    var hexed := Encode(custodianKey);
    Printed(Encode(Encrypted(aead, custodianKey, random, master).value), hexed[..|hexed| / 2], hexed[|hexed| / 2..])
  }

  // The printed halves are halves of the key, and pass the validation of the routes.
  lemma PrintedHalves(aead: Aead, master: Bytes, custodianKey: Bytes, random: Bytes)
    requires |custodianKey| == KEY_LEN && |random| == NONCE_LEN
    ensures var p := Generate(aead, master, custodianKey, random);
            && ValidHalf(p.key1) && ValidHalf(p.key2)
            && p.key1 == Encode(custodianKey[..KEY_LENGTH]) && p.key2 == Encode(custodianKey[KEY_LENGTH..])
            && Decode(p.key1 + p.key2) == Some(custodianKey)
  {
    hide Encode, Decode;
    var a, b := custodianKey[..KEY_LENGTH], custodianKey[KEY_LENGTH..];
    assert a + b == custodianKey;
    EncodeConcat(a, b);
    DecodeEncode(a);
    DecodeEncode(b);
    DecodeEncode(custodianKey);
    assert Encode(custodianKey) == Encode(a) + Encode(b);
  }

  // ----- one tenant among many -----

  function Own(requests: seq<(string, Request)>, t: string): seq<(string, Request)> {
    if requests == [] then []
    else (if requests[0].0 == t then [requests[0]] else []) + Own(requests[1..], t)
  }

  function Restrict<V>(m: map<string, V>, t: string): map<string, V> {
    if t in m then map[t := m[t]] else map[]
  }

  function OwnGlobal(g: Global, t: string): Global {
    Global(Restrict(g.unlocked, t), Restrict(g.halves, t))
  }

  // The server as if `t` were its only tenant.
  function Only(y: Server, t: string): Server {
    Server(OwnGlobal(y.global, t), Own(y.admitted, t), Own(y.handled, t))
  }

  // The events of one tenant; a request served is found by its place among that tenant's own.
  function OwnEvent(y: Server, e: Event, t: string): seq<Event> {
    match e
    case Arrive(u, _) => if u == t then [e] else []
    case Serve(i, starts) =>
      if i < |y.admitted| && y.admitted[i].0 == t then [Serve(|Own(y.admitted[..i], t)|, starts)] else []
  }

  function OwnEvents(cf: Config, y: Server, events: seq<Event>, t: string): seq<Event>
    decreases events
  {
    if events == [] then []
    else OwnEvent(y, events[0], t) + OwnEvents(cf, Next(cf, y, events[0]), events[1..], t)
  }

  lemma OwnHead(q: seq<(string, Request)>, t: string)
    ensures Own(q, t) == if q == [] then [] else (if q[0].0 == t then [q[0]] else []) + Own(q[1..], t)
  {
  }

  lemma Regroup<T>(h: seq<T>, x: seq<T>, y: seq<T>)
    ensures h + (x + y) == (h + x) + y
  {
  }

  lemma {:induction false} OwnConcat(a: seq<(string, Request)>, b: seq<(string, Request)>, t: string)
    ensures Own(a + b, t) == Own(a, t) + Own(b, t)
  {
    hide Own;
    OwnHead(a, t);
    OwnHead(a + b, t);
    if a == [] {
      assert a + b == b;
    } else {
      assert (a + b)[1..] == a[1..] + b;
      OwnConcat(a[1..], b, t);
      Regroup(if a[0].0 == t then [a[0]] else [], Own(a[1..], t), Own(b, t));
    }
  }

  lemma OwnSplit(q: seq<(string, Request)>, i: nat, t: string)
    requires i < |q|
    ensures Own(q, t) == Own(q[..i], t) + (if q[i].0 == t then [q[i]] else []) + Own(q[i + 1..], t)
    ensures Own(q[..i] + q[i + 1..], t) == Own(q[..i], t) + Own(q[i + 1..], t)
  {
    assert q == q[..i] + q[i..] && q[i..][1..] == q[i + 1..];
    OwnConcat(q[..i], q[i..], t);
    OwnConcat(q[..i], q[i + 1..], t);
  }

  lemma HandleOwn(cf: Config, g: Global, u: string, rq: Request, starts: bool, t: string)
    ensures u == t ==> Handle(cf, OwnGlobal(g, t), t, rq, starts)
                       == (OwnGlobal(Handle(cf, g, t, rq, starts).0, t), Handle(cf, g, t, rq, starts).1)
    ensures u != t ==> OwnGlobal(Handle(cf, g, u, rq, starts).0, t) == OwnGlobal(g, t)
  {
    hide Joined, ValidHalf;
    if u in g.halves {
      var ks := g.halves[u];
      match rq {
        case Key1(key) => RestrictUpdate(g.halves, u, ks.(key1 := Some(key)), t);
        case Key2(key) => RestrictUpdate(g.halves, u, ks.(key2 := Some(key)), t);
        case Decrypt =>
          RestrictUpdate(g.halves, u, KeyState(None, None), t);
          if ks.key1.Some? && ks.key2.Some? && Joined(cf, u, ks.key1.value, ks.key2.value).Some? {
            RestrictUpdate(g.unlocked, u, Joined(cf, u, ks.key1.value, ks.key2.value).value, t);
          }
      }
    }
  }

  lemma RestrictUpdate<V>(m: map<string, V>, u: string, v: V, t: string)
    ensures Restrict(m[u := v], t) == if u == t then Restrict(m, t)[t := v] else Restrict(m, t)
  {
  }

  lemma OwnAppend(q: seq<(string, Request)>, r: (string, Request), t: string)
    ensures Own(q + [r], t) == Own(q, t) + if r.0 == t then [r] else []
  {
    OwnConcat(q, [r], t);
    assert [r][1..] == [];
  }

  lemma NextOwn(cf: Config, y: Server, e: Event, t: string)
    ensures Only(Next(cf, y, e), t) == Run(cf, Only(y, t), OwnEvent(y, e, t))
  {
    hide Handle, Own;
    var z := Only(y, t);
    match e {
      case Arrive(u, rq) =>
        OwnAppend(y.admitted, (u, rq), t);
        if u == t { RunOne(cf, z, e); }
      case Serve(i, starts) =>
        if i < |y.admitted| {
          var (u, rq) := y.admitted[i];
          OwnSplit(y.admitted, i, t);
          OwnAppend(y.handled, (u, rq), t);
          HandleOwn(cf, y.global, u, rq, starts, t);
          if u == t {
            var j := |Own(y.admitted[..i], t)|;
            var own := Own(y.admitted, t);
            assert own[j] == (t, rq) && own[..j] == Own(y.admitted[..i], t) && own[j + 1..] == Own(y.admitted[i + 1..], t);
            RunOne(cf, z, Serve(j, starts));
          }
        }
    }
  }

  lemma RunOne(cf: Config, y: Server, e: Event)
    ensures Run(cf, y, [e]) == Next(cf, y, e)
  {
    assert [e][1..] == [];
  }

  lemma {:induction false} RunConcat(cf: Config, y: Server, a: seq<Event>, b: seq<Event>)
    ensures Run(cf, y, a + b) == Run(cf, Run(cf, y, a), b)
    decreases a
  {
    hide Next;
    if a == [] {
      assert a + b == b;
    } else {
      assert (a + b)[0] == a[0] && (a + b)[1..] == a[1..] + b;
      RunConcat(cf, Next(cf, y, a[0]), a[1..], b);
    }
  }

  // In every run a tenant's halves, master key, and requests admitted and handled are those of the run of its own
  // events alone.
  lemma {:induction false} TenantsIndependent(cf: Config, y: Server, events: seq<Event>, t: string)
    ensures Only(Run(cf, y, events), t) == Run(cf, Only(y, t), OwnEvents(cf, y, events, t))
    decreases events
  {
    hide Next, Only, OwnEvent;
    if events != [] {
      var y' := Next(cf, y, events[0]);
      NextOwn(cf, y, events[0], t);
      TenantsIndependent(cf, y', events[1..], t);
      RunConcat(cf, Only(y, t), OwnEvent(y, events[0], t), OwnEvents(cf, y', events[1..], t));
    }
  }

  // Two submissions and a decrypt, each handled as it comes.
  function Ceremony(t: string, a: Request, b: Request): seq<Event> {
    [Arrive(t, a), Serve(0, true), Arrive(t, b), Serve(0, true), Arrive(t, Decrypt), Serve(0, true)]
  }

  lemma Handled(cf: Config, y: Server, t: string, rq: Request)
    requires y.admitted == [] && Admit(cf, y.global, t, rq).None?
    ensures Run(cf, y, [Arrive(t, rq), Serve(0, true)])
         == Server(Handle(cf, y.global, t, rq, true).0, [], y.handled + [(t, rq)])
  {
    hide Handle;
    var arrived := Next(cf, y, Arrive(t, rq));
    assert arrived.admitted == [(t, rq)];
    assert [Arrive(t, rq), Serve(0, true)] == [Arrive(t, rq)] + [Serve(0, true)];
    RunConcat(cf, y, [Arrive(t, rq)], [Serve(0, true)]);
    RunOne(cf, y, Arrive(t, rq));
    RunOne(cf, arrived, Serve(0, true));
    assert arrived.admitted[..0] + arrived.admitted[1..] == [];
  }

  // While other tenants do whatever they do: a locked tenant whose own events are the submission of the two
  // printed halves, in either order, and a decrypt, ends up with exactly the generated master key in service.
  lemma CeremonyUnlocks(
      cf: Config, y: Server, events: seq<Event>, t: string, master: Bytes, custodianKey: Bytes, random: Bytes, inOrder: bool)
    requires Opens(cf.aead) && |custodianKey| == KEY_LEN && |random| == NONCE_LEN && Inv(cf, y)
    requires var p := Generate(cf.aead, master, custodianKey, random);
             t in cf.secrets && Decode(p.masterKey) == Some(cf.secrets[t])
    requires t !in y.global.unlocked && Own(y.admitted, t) == []
    requires var p := Generate(cf.aead, master, custodianKey, random);
             OwnEvents(cf, y, events, t) == if inOrder then Ceremony(t, Key1(p.key1), Key2(p.key2))
                                            else Ceremony(t, Key2(p.key2), Key1(p.key1))
    ensures Lookup(Run(cf, y, events).global.unlocked, t) == Some(master)
  {
    hide Generate, Encode, Decode, Encrypted, Decrypted, Opens, Run, OwnEvents;
    var p := Generate(cf.aead, master, custodianKey, random);
    PrintedHalves(cf.aead, master, custodianKey, random);
    JoinedPrinted(cf, t, master, custodianKey, random);
    TenantsIndependent(cf, y, events, t);
    var (a, b) := if inOrder then (Key1(p.key1), Key2(p.key2)) else (Key2(p.key2), Key1(p.key1));
    var z := Only(y, t);
    var first, second := [Arrive(t, a), Serve(0, true)], [Arrive(t, b), Serve(0, true)];
    var last := [Arrive(t, Decrypt), Serve(0, true)];
    assert Ceremony(t, a, b) == first + (second + last);
    RunConcat(cf, z, first, second + last);
    Handled(cf, z, t, a);
    var z1 := Run(cf, z, first);
    RunConcat(cf, z1, second, last);
    Handled(cf, z1, t, b);
    var z2 := Run(cf, z1, second);
    Handled(cf, z2, t, Decrypt);
  }

  lemma JoinedPrinted(cf: Config, t: string, master: Bytes, custodianKey: Bytes, random: Bytes)
    requires Opens(cf.aead) && |custodianKey| == KEY_LEN && |random| == NONCE_LEN
    requires var p := Generate(cf.aead, master, custodianKey, random);
             t in cf.secrets && Decode(p.masterKey) == Some(cf.secrets[t])
    ensures var p := Generate(cf.aead, master, custodianKey, random); Joined(cf, t, p.key1, p.key2) == Some(master)
  {
    hide Encode, Decode, Encrypted, Decrypted, Opens;
    PrintedHalves(cf.aead, master, custodianKey, random);
    DecryptEncrypt(cf.aead, custodianKey, random, master);
    DecodeEncode(Encrypted(cf.aead, custodianKey, random, master).value);
  }

  // Both halves are held, and their joined hexadecimal is a key under which the cipher opens the tenant's secret:
  // 32 bytes, of which the first 12 of the secret are the nonce.
  ghost predicate Yields(cf: Config, g: Global, t: string, master: Bytes) {
    && t in g.halves && g.halves[t].key1.Some? && g.halves[t].key2.Some? && t in cf.secrets
    && var key := Decode(g.halves[t].key1.value + g.halves[t].key2.value);
       && key.Some? && |key.value| == 32 && |cf.secrets[t]| >= 12
       && cf.aead.open(key.value, cf.secrets[t][..12], cf.secrets[t][12..]) == Some(master)
  }

  // Why a decrypt answers as it does.
  lemma DecryptReply(cf: Config, g: Global, t: string, starts: bool)
    ensures var (g', r) := Handle(cf, g, t, Decrypt, starts);
            && (r == UnknownTenant <==> t !in g.halves)
            && (r == Unlocked <==> starts && exists master :: Yields(cf, g, t, master))
            && (r == StartFailed <==> !starts && exists master :: Yields(cf, g, t, master))
            && (r == DecryptingFailed <==> t in g.halves && forall master :: !Yields(cf, g, t, master))
            && (if r == Unlocked
                then t in g'.unlocked && Yields(cf, g, t, g'.unlocked[t]) && g'.unlocked == g.unlocked[t := g'.unlocked[t]]
                else g'.unlocked == g.unlocked)
            && (t in g.halves ==>
                  g'.halves == g.halves[t := if g.halves[t].key1.Some? && g.halves[t].key2.Some? then g.halves[t]
                                             else KeyState(None, None)])
  {
    hide Decode;
    if t in g.halves && g.halves[t].key1.Some? && g.halves[t].key2.Some? {
      var o := Joined(cf, t, g.halves[t].key1.value, g.halves[t].key2.value);
      forall master ensures Yields(cf, g, t, master) <==> o == Some(master) {
      }
      assert g.halves == g.halves[t := g.halves[t]];
    }
  }

  // Why a request is let in or refused, before any handler runs.
  lemma AdmitReply(cf: Config, g: Global, t: string, rq: Request)
    ensures Admit(cf, g, t, rq) == Some(UnknownTenant) <==> t !in cf.secrets
    ensures Admit(cf, g, t, rq) == Some(AlreadyUnlocked) <==> t in cf.secrets && t in g.unlocked
    ensures Admit(cf, g, t, rq) == Some(InvalidKey) <==>
              t in cf.secrets && t !in g.unlocked && (rq.Key1? || rq.Key2?)
              && (Decode(rq.key).None? || |Decode(rq.key).value| != 16)
    ensures Admit(cf, g, t, rq).None? <==>
              t in cf.secrets && t !in g.unlocked
              && (rq.Decrypt? || (Decode(rq.key).Some? && |Decode(rq.key).value| == 16))
  {
    hide Decode;
  }

  // The tenant is configured with what the generator printed, and holds the two halves.
  ghost predicate HoldsPrinted(cf: Config, g: Global, t: string, master: Bytes, custodianKey: Bytes, random: Bytes) {
    && |custodianKey| == KEY_LEN && |random| == NONCE_LEN && t in cf.secrets && t in g.halves
    && var p := Generate(cf.aead, master, custodianKey, random);
       Decode(p.masterKey) == Some(cf.secrets[t]) && g.halves[t] == KeyState(Some(p.key1), Some(p.key2))
  }

  lemma HeldOpen(cf: Config, g: Global, t: string, master: Bytes, custodianKey: Bytes, random: Bytes)
    requires Opens(cf.aead) && HoldsPrinted(cf, g, t, master, custodianKey, random)
    ensures Handle(cf, g, t, Decrypt, true) == (g.(unlocked := g.unlocked[t := master]), Unlocked)
  {
    hide Encode, Decode, Encrypted, Decrypted, Opens, Joined, Generate;
    JoinedPrinted(cf, t, master, custodianKey, random);
  }

  // ----- the server's own state -----

  class GlobalAppState {
    const cf: Config
    var tenantsAppState: map<string, Bytes>
    var tenantsKeyState: map<string, KeyState>

    function View(): Global
      reads this
    {
      Global(tenantsAppState, tenantsKeyState)
    }

    constructor (cf: Config)
      ensures this.cf == cf && View() == Initial(cf)
    {
      this.cf := cf;
      tenantsAppState := map[];
      tenantsKeyState := map t | t in cf.secrets :: KeyState(None, None);
    }

    method SubmitKey1(t: string, key: string) returns (r: Reply)
      modifies this`tenantsKeyState
      ensures (View(), r) == Handle(cf, old(View()), t, Key1(key), true)
      ensures r == Received
      ensures tenantsKeyState == if t in old(tenantsKeyState)
                                 then old(tenantsKeyState)[t := old(tenantsKeyState)[t].(key1 := Some(key))]
                                 else old(tenantsKeyState)
    {
      if t in tenantsKeyState {
        tenantsKeyState := tenantsKeyState[t := tenantsKeyState[t].(key1 := Some(key))];
      }
      r := Received;
    }

    method SubmitKey2(t: string, key: string) returns (r: Reply)
      modifies this`tenantsKeyState
      ensures (View(), r) == Handle(cf, old(View()), t, Key2(key), true)
      ensures r == Received
      ensures tenantsKeyState == if t in old(tenantsKeyState)
                                 then old(tenantsKeyState)[t := old(tenantsKeyState)[t].(key2 := Some(key))]
                                 else old(tenantsKeyState)
    {
      if t in tenantsKeyState {
        tenantsKeyState := tenantsKeyState[t := tenantsKeyState[t].(key2 := Some(key))];
      }
      r := Received;
    }

    // The halves a generator printed, once both are held, put its master key in service. No other tenant sees
    // anything, and no tenant leaves service.
    method DecryptKey(t: string, starts: bool) returns (r: Reply)
      modifies this
      ensures (View(), r) == Handle(cf, old(View()), t, Decrypt, starts)
      ensures forall master, custodianKey, random ::
                Opens(cf.aead) && old(HoldsPrinted(cf, View(), t, master, custodianKey, random)) && starts ==>
                  r == Unlocked && Lookup(tenantsAppState, t) == Some(master)
      ensures r == UnknownTenant <==> t !in old(tenantsKeyState)
      ensures r == Unlocked <==> starts && exists master :: old(Yields(cf, View(), t, master))
      ensures r == StartFailed <==> !starts && exists master :: old(Yields(cf, View(), t, master))
      ensures r == DecryptingFailed <==> t in old(tenantsKeyState) && forall master :: !old(Yields(cf, View(), t, master))
      ensures if r == Unlocked then t in tenantsAppState && Yields(cf, old(View()), t, tenantsAppState[t])
                                    && tenantsAppState == old(tenantsAppState)[t := tenantsAppState[t]]
              else tenantsAppState == old(tenantsAppState)
      ensures t in old(tenantsKeyState) ==>
                tenantsKeyState == old(tenantsKeyState)[t :=
                  if old(tenantsKeyState)[t].key1.Some? && old(tenantsKeyState)[t].key2.Some? then old(tenantsKeyState)[t]
                  else KeyState(None, None)]
      ensures forall u :: u in old(tenantsAppState) ==> u in tenantsAppState
      ensures forall u :: u != t ==> Lookup(tenantsAppState, u) == old(Lookup(tenantsAppState, u))
                                     && Lookup(tenantsKeyState, u) == old(Lookup(tenantsKeyState, u))
    {
      hide Decode, Decrypted, HoldsPrinted, Joined, Opens, Yields;
      ghost var g := View();
      DecryptReply(cf, g, t, starts);
      forall u { OthersUntouched(cf, g, t, Decrypt, starts, u); }
      forall master, custodianKey, random |
        Opens(cf.aead) && HoldsPrinted(cf, g, t, master, custodianKey, random) && starts
        ensures Handle(cf, g, t, Decrypt, starts) == (g.(unlocked := g.unlocked[t := master]), Unlocked)
      {
        HeldOpen(cf, g, t, master, custodianKey, random);
      }
      if t !in tenantsKeyState { return UnknownTenant; }
      var ks := tenantsKeyState[t];
      if ks.key1.Some? && ks.key2.Some? {
        var master := Joined(cf, t, ks.key1.value, ks.key2.value);
        if master.None? { return DecryptingFailed; }
        if !starts { return StartFailed; }
        tenantsAppState := tenantsAppState[t := master.value];
        return Unlocked;
      }
      tenantsKeyState := tenantsKeyState[t := KeyState(None, None)];
      r := DecryptingFailed;
    }
  }
}
