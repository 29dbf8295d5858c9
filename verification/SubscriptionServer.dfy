/** The packets a subscription server processes, and what their history says about who is linked to what. */
module SubscriptionHistory {
  import opened Options

  datatype Address = Address(ip: nat, port: nat)

  datatype Command =
    | RemoveAbo(name: string)
    | RemoveClient(address: Address)
    | UseAbo(name: string)       // the commands that log, stamp or restrict an abo
    | OtherCommand

  datatype Kind =
    | Management(command: Command)
    | Data(name: string, data: string)
    | SetData(name: string, data: string)
    | Supply(name: string)
    | Unsupply(name: string)
    | Subscribe(name: string)
    | Unsubscribe(name: string)
    | ClientTerm
    | Unknown                    // an invalid packet, or one of an unknown type

  datatype Event = Event(source: Address, kind: Kind)

  datatype Role = Subscriber | Supplier

  /** Whether a packet makes the client at address a a subscriber or supplier of the abo named n. */
  predicate Opens(role: Role, e: Event, a: Address, n: string) {
    e.source == a &&
    match role
    case Subscriber => e.kind == Subscribe(n)
    case Supplier => e.kind == Supply(n) || (e.kind.Data? && e.kind.name == n) || (e.kind.SetData? && e.kind.name == n)
  }

  predicate Closes(role: Role, e: Event, a: Address, n: string) {
    || (e.source == a && (e.kind == ClientTerm || e.kind == if role.Subscriber? then Unsubscribe(n) else Unsupply(n)))
    || e.kind == Management(RemoveClient(a))
    || e.kind == Management(RemoveAbo(n))
  }

  /** Whether the latest packet that decides about a and n made the link. */
  predicate Holds(role: Role, h: seq<Event>, a: Address, n: string) {
    h != [] &&
    var before, e := h[..|h| - 1], h[|h| - 1];
    Opens(role, e, a, n) || (Holds(role, before, a, n) && !Closes(role, e, a, n))
  }

  ghost predicate OpenSince(role: Role, h: seq<Event>, a: Address, n: string, k: nat) {
    k < |h| && Opens(role, h[k], a, n) && forall j :: k < j < |h| ==> !Closes(role, h[j], a, n)
  }

  /** A link holds exactly when some packet opened it and none since has closed it. */
  lemma {:induction false} HoldsIff(role: Role, h: seq<Event>, a: Address, n: string)
    ensures Holds(role, h, a, n) <==> exists k :: OpenSince(role, h, a, n, k)
  {
    if h != [] {
      var before, e := h[..|h| - 1], h[|h| - 1];
      HoldsIff(role, before, a, n);
      if Opens(role, e, a, n) {
        assert OpenSince(role, h, a, n, |h| - 1);
      } else {
        forall k | OpenSince(role, before, a, n, k) && !Closes(role, e, a, n)
          ensures OpenSince(role, h, a, n, k)
        {
        }
        forall k | OpenSince(role, h, a, n, k)
          ensures OpenSince(role, before, a, n, k) && !Closes(role, e, a, n)
        {
        }
      }
    }
  }

  // ----- who and what is registered -----

  /** The name of the abo that a packet finds or creates. */
  function NameOf(e: Event): Option<string> {
    match e.kind
    case Management(UseAbo(n)) => Some(n)
    case Data(n, _) => Some(n)
    case SetData(n, _) => Some(n)
    case Supply(n) => Some(n)
    case Unsupply(n) => Some(n)
    case Subscribe(n) => Some(n)
    case Unsubscribe(n) => Some(n)
    case _ => None
  }

  /** Some packet came from the address, and neither it nor any later one removed the client. */
  ghost predicate ClientPresent(h: seq<Event>, a: Address) {
    exists k :: 0 <= k < |h| && h[k].source == a && ClientStays(h, a, k)
  }

  ghost predicate ClientStays(h: seq<Event>, a: Address, k: nat) {
    forall j :: k <= j < |h| ==>
      !(h[j].source == a && h[j].kind == ClientTerm) && h[j].kind != Management(RemoveClient(a))
  }

  /** Some packet was about the name, and no later one removed the abo. */
  ghost predicate AboPresent(h: seq<Event>, n: string) {
    exists k :: 0 <= k < |h| && NameOf(h[k]) == Some(n) && AboStays(h, n, k)
  }

  ghost predicate AboStays(h: seq<Event>, n: string, k: nat) {
    forall j :: k <= j < |h| ==> h[j].kind != Management(RemoveAbo(n))
  }

  lemma ClientPresentStep(h: seq<Event>, e: Event, a: Address)
    ensures ClientPresent(h + [e], a) <==>
            && (ClientPresent(h, a) || e.source == a)
            && !(e.source == a && e.kind == ClientTerm) && e.kind != Management(RemoveClient(a))
  {
    var g := h + [e];
    var gone := (e.source == a && e.kind == ClientTerm) || e.kind == Management(RemoveClient(a));
    if !gone {
      forall k | 0 <= k < |h| && ClientStays(h, a, k)
        ensures ClientStays(g, a, k)
      {
      }
      assert ClientStays(g, a, |h|);
      if ClientPresent(h, a) {
        var k :| 0 <= k < |h| && h[k].source == a && ClientStays(h, a, k);
        assert g[k].source == a && ClientStays(g, a, k);
      } else if e.source == a {
        assert g[|h|].source == a;
      }
    }
    if ClientPresent(g, a) {
      var k :| 0 <= k < |g| && g[k].source == a && ClientStays(g, a, k);
      assert g[|h|] == e;
      if k < |h| {
        assert forall j :: k <= j < |h| ==> g[j] == h[j];
        assert h[k].source == a && ClientStays(h, a, k);
      }
    }
  }

  lemma AboPresentStep(h: seq<Event>, e: Event, n: string)
    ensures AboPresent(h + [e], n) <==> (AboPresent(h, n) || NameOf(e) == Some(n)) && e.kind != Management(RemoveAbo(n))
  {
    var g := h + [e];
    if e.kind != Management(RemoveAbo(n)) {
      forall k | 0 <= k < |h| && AboStays(h, n, k)
        ensures AboStays(g, n, k)
      {
      }
      assert AboStays(g, n, |h|);
      if AboPresent(h, n) {
        var k :| 0 <= k < |h| && NameOf(h[k]) == Some(n) && AboStays(h, n, k);
        assert NameOf(g[k]) == Some(n) && AboStays(g, n, k);
      } else if NameOf(e) == Some(n) {
        assert NameOf(g[|h|]) == Some(n);
      }
    }
    if AboPresent(g, n) {
      var k :| 0 <= k < |g| && NameOf(g[k]) == Some(n) && AboStays(g, n, k);
      assert g[|h|] == e;
      if k < |h| {
        assert forall j :: k <= j < |h| ==> g[j] == h[j];
        assert NameOf(h[k]) == Some(n) && AboStays(h, n, k);
      }
    }
  }

  datatype Sent = Sent(to: Address, role: Role, name: string, data: string)

  function Receivers(sent: seq<Sent>): (r: seq<Address>)
    ensures |r| == |sent|
  {
    seq(|sent|, i requires 0 <= i < |sent| => sent[i].to)
  }

  /** A packet went exactly once to everybody linked in that role, except its sender and the
      address 0.0.0.0, and to nobody else. */
  ghost predicate FannedOut(sent: seq<Sent>, role: Role, h: seq<Event>, source: Address, n: string, data: string) {
    && (forall i :: 0 <= i < |sent| ==> sent[i] == Sent(sent[i].to, role, n, data))
    && (forall i, j :: 0 <= i < j < |sent| ==> sent[i].to != sent[j].to)
    && (forall b :: b in Receivers(sent) <==> Holds(role, h, b, n) && b != source && b.ip != 0)
  }
}

/** The server: registries of clients and abos, linked with each other both ways. */
module SubscriptionServer {
  import opened Options
  import opened SubscriptionHistory
  import opened Slist

  const MAX_ABOS: nat := 128
  const MAX_CLIENTINFOS: nat := 128
  const MAX_NAMELEN: nat := 256

  class Abo {
    const name: string
    var supplier: seq<ClientInfo>
    var subscriber: seq<ClientInfo>
    /** The index in the list of all abos. */
    var myindex: nat

    constructor (aboname: string, myindex: nat)
      ensures name == StoredName(aboname) && supplier == subscriber == [] && this.myindex == myindex
    {
      name := StoredName(aboname);
      supplier, subscriber := [], [];
      this.myindex := myindex;
    }
  }

  class ClientInfo {
    const address: Address
    var supply: seq<Abo>
    var subscription: seq<Abo>
    /** The index in the list of all clients. */
    var myindex: nat

    constructor (addr: Address, myindex: nat)
      ensures address == addr && supply == subscription == [] && this.myindex == myindex
    {
      address := addr;
      supply, subscription := [], [];
      this.myindex := myindex;
    }
  }

  /** Names are cut off to leave room for the terminator. */
  function StoredName(name: string): string {
    if |name| < MAX_NAMELEN - 1 then name else name[..MAX_NAMELEN - 1]
  }

  /** The registered names after a name has been looked up. */
  function LookedUp(names: seq<string>, name: string): seq<string> {
    if name in names then names else names + [StoredName(name)]
  }

  /** Looking up a name again finds what the first look registered exactly if the name is
      stored whole; a longer name is registered once more each time, under the same name. */
  lemma FoundAgainIff(names: seq<string>, name: string)
    requires forall n | n in names :: |n| < MAX_NAMELEN
    ensures LookedUp(LookedUp(names, name), name) == LookedUp(names, name) <==> |name| <= 255
    ensures |name| >= MAX_NAMELEN ==>
              LookedUp(LookedUp(names, name), name) == names + [StoredName(name), StoredName(name)]
  {
    var once := LookedUp(names, name);
    if name !in names {
      assert once == names + [StoredName(name)];
      assert |name| < MAX_NAMELEN ==> StoredName(name) == name && once[|names|] == name;
    }
  }

  ghost function NamesOf(abos: seq<Abo>): (r: seq<string>)
    ensures |r| == |abos| && forall i :: 0 <= i < |abos| ==> r[i] == abos[i].name
  {
    seq(|abos|, i requires 0 <= i < |abos| => abos[i].name)
  }

  lemma NamesGrown(abos: seq<Abo>, name: string, A: Abo)
    requires A.name == StoredName(name)
    ensures NamesOf(if exists B :: B in abos && B.name == name then abos else abos + [A]) == LookedUp(NamesOf(abos), name)
  {
    hide StoredName;
    assert (exists B :: B in abos && B.name == name) <==> name in NamesOf(abos) by {
      if name in NamesOf(abos) {
        var i :| 0 <= i < |abos| && NamesOf(abos)[i] == name;
        assert abos[i] in abos;
      }
      if B :| B in abos && B.name == name {
        var i :| 0 <= i < |abos| && abos[i] == B;
        assert NamesOf(abos)[i] == name;
      }
    }
  }

  /** What a name is cut off to if it is too long. */
  function Aliases(name: string): set<string> {
    if |name| < MAX_NAMELEN then {} else {StoredName(name)}
  }

  lemma Stored(name: string)
    ensures |StoredName(name)| < MAX_NAMELEN && (StoredName(name) == name <==> |name| < MAX_NAMELEN)
  {
  }

  function NameAliases(e: Event): set<string> {
    match NameOf(e) case None => {} case Some(n) => Aliases(n)
  }

  /** What the names in some packets are cut off to. */
  function Aliased(h: seq<Event>): set<string> {
    if h == [] then {} else Aliased(h[..|h| - 1]) + NameAliases(h[|h| - 1])
  }

  lemma {:induction false} AliasedIff(h: seq<Event>, n: string)
    ensures n in Aliased(h) <==>
            exists k :: 0 <= k < |h| && NameOf(h[k]).Some? && |NameOf(h[k]).value| >= MAX_NAMELEN
                        && n == StoredName(NameOf(h[k]).value)
    ensures n in Aliased(h) ==> |n| == MAX_NAMELEN - 1
  {
    if h != [] {
      AliasedIff(h[..|h| - 1], n);
    }
  }

  /** The packet decides about one link only. */
  ghost predicate OpensOnly(e: Event, role: Role, a: Address, n: string) {
    && (forall r, b, m :: Opens(r, e, b, m) <==> r == role && b == a && m == n)
    && (forall r, b, m :: !Closes(r, e, b, m))
  }

  ghost predicate ClosesOnly(e: Event, role: Role, a: Address, n: string) {
    && (forall r, b, m :: !Opens(r, e, b, m))
    && (forall r, b, m :: Closes(r, e, b, m) <==> r == role && b == a && m == n)
  }

  lemma EmptyNoDup<T>()
    ensures NoDup<T>([])
  {
  }

  ghost predicate HasAddress(cs: seq<ClientInfo>, addr: Address) {
    exists c :: c in cs && c.address == addr
  }

  lemma WithoutClient(before: seq<ClientInfo>, after: seq<ClientInfo>, c: ClientInfo)
    requires c in before && forall x :: x in after <==> x in before && x != c
    requires forall d :: d in before && d.address == c.address ==> d == c
    ensures forall a :: HasAddress(after, a) <==> HasAddress(before, a) && a != c.address
  {
  }

  class Server {
    const aboList: array<Abo?>
    var noabos: nat
    const clientList: array<ClientInfo?>
    var noclientinfos: nat
    var outbox: seq<Sent>

    ghost var abos: seq<Abo>
    ghost var clients: seq<ClientInfo>
    ghost var history: seq<Event>
    /** What the names that were too long to be stored have been cut off to. */
    ghost var aliased: set<string>

    /** The lists of all abos and clients: without gaps, each entry knows its own index, and no
        address occurs twice. */
    ghost predicate Registered()
      reads `noabos, `noclientinfos, `abos, `clients
      reads aboList, clientList, abos`myindex, clients`myindex
    {
      && aboList.Length == MAX_ABOS && clientList.Length == MAX_CLIENTINFOS
      && noabos == |abos| <= MAX_ABOS && noclientinfos == |clients| <= MAX_CLIENTINFOS
      && (forall i :: 0 <= i < noabos ==> aboList[i] == abos[i] && abos[i].myindex == i)
      && (forall i :: noabos <= i < MAX_ABOS ==> aboList[i] == null)
      && (forall i :: 0 <= i < noclientinfos ==> clientList[i] == clients[i] && clients[i].myindex == i)
      && (forall i :: noclientinfos <= i < MAX_CLIENTINFOS ==> clientList[i] == null)
      && (forall A :: A in abos ==> |A.name| < MAX_NAMELEN)
      && (forall i, j :: 0 <= i < j < |clients| ==> clients[i].address != clients[j].address)
    }

    /** Whether an abo's name is stored whole, and no longer name was cut off to it. */
    ghost predicate Plain(n: string)
      reads `aliased
    {
      |n| < MAX_NAMELEN && n !in aliased
    }

    /** Such names do not occur twice. */
    ghost predicate Named()
      reads `abos, `aliased
    {
      forall A, B :: A in abos && B in abos && A != B && Plain(A.name) ==> A.name != B.name
    }

    /** The two halves of a relation agree, and no list mentions anything twice or mentions
        what is not registered. */
    ghost predicate SubscribersLinked()
      reads `abos, `clients, abos`subscriber, clients`subscription
    {
      && (forall A :: A in abos ==> NoDup(A.subscriber))
      && (forall c :: c in clients ==> NoDup(c.subscription))
      && (forall A, c :: A in abos && c in A.subscriber ==> c in clients && A in c.subscription)
      && (forall c, A :: c in clients && A in c.subscription ==> A in abos && c in A.subscriber)
    }

    ghost predicate SuppliersLinked()
      reads `abos, `clients, abos`supplier, clients`supply
    {
      && (forall A :: A in abos ==> NoDup(A.supplier))
      && (forall c :: c in clients ==> NoDup(c.supply))
      && (forall A, c :: A in abos && c in A.supplier ==> c in clients && A in c.supply)
      && (forall c, A :: c in clients && A in c.supply ==> A in abos && c in A.supplier)
    }

    ghost predicate Linked()
      reads `abos, `clients, abos`subscriber, clients`subscription, abos`supplier, clients`supply
    {
      SubscribersLinked() && SuppliersLinked()
    }

    ghost predicate KnownClient(addr: Address)
      reads `clients
    {
      HasAddress(clients, addr)
    }

    ghost predicate KnownAbo(name: string)
      reads `abos
    {
      exists A :: A in abos && A.name == name
    }

    /** Who is linked to what is what the history says. */
    ghost predicate Agrees(h: seq<Event>)
      reads `abos, `clients, `aliased, clients`subscription, clients`supply
    {
      forall c, A :: c in clients && A in abos && Plain(A.name) ==>
        (A in c.subscription <==> Holds(Subscriber, h, c.address, A.name)) &&
        (A in c.supply <==> Holds(Supplier, h, c.address, A.name))
    }

    ghost predicate Complete(h: seq<Event>)
      reads `abos, `clients, `aliased
    {
      forall role, a, n :: Holds(role, h, a, n) && Plain(n) ==> KnownClient(a) && KnownAbo(n)
    }

    /** Who and what is registered is what the history says. */
    ghost predicate Present(h: seq<Event>)
      reads `abos, `clients, `aliased
    {
      && (forall a :: KnownClient(a) <==> ClientPresent(h, a))
      && (forall n :: Plain(n) ==> (KnownAbo(n) <==> AboPresent(h, n)))
    }

    ghost predicate Valid()
      reads `noabos, `noclientinfos, `abos, `clients, `history, `aliased, aboList, clientList, abos, clients
    {
      Registered() && Named() && Linked() && Agrees(history) && Complete(history)
    }

    constructor ()
      ensures Valid() && history == [] && outbox == [] && abos == [] && clients == [] && aliased == {}
      ensures fresh(aboList) && fresh(clientList)
    {
      aboList := new Abo?[MAX_ABOS](_ => null);
      clientList := new ClientInfo?[MAX_CLIENTINFOS](_ => null);
      noabos, noclientinfos := 0, 0;
      outbox := [];
      abos, clients, history, aliased := [], [], [], {};
    }

    /** Whatever is registered anew has no links, and none are known for it if its name counts. */
    twostate lemma LinksGrown(new newAbos: seq<Abo>, new newClients: seq<ClientInfo>)
      requires old(Linked())
      requires old(Named())
      requires old(Agrees(history))
      requires old(Complete(history))
      requires unchanged(`history) && old(aliased) <= aliased
      requires abos == old(abos) + newAbos && clients == old(clients) + newClients && |newAbos| <= 1
      requires unchanged(set A | A in old(abos))
      requires unchanged(set c | c in old(clients))
      requires forall A :: A in newAbos ==> A.supplier == A.subscriber == []
      requires forall A, n :: A in newAbos && old(KnownAbo(n)) && Plain(n) ==> n != A.name
      requires forall c :: c in newClients ==> c.supply == c.subscription == [] && forall a :: old(KnownClient(a)) ==> a != c.address
      ensures Linked() && Named() && Agrees(history) && Complete(history)
    {
      hide Holds, NoDup;
      EmptyNoDup<Abo>();
      EmptyNoDup<ClientInfo>();
      forall n | old(KnownAbo(n))
        ensures KnownAbo(n)
      {
        var A :| A in old(abos) && A.name == n;
        assert A in abos;
      }
      forall a | old(KnownClient(a))
        ensures KnownClient(a)
      {
        var c :| c in old(clients) && c.address == a;
        assert c in clients;
      }
      assert forall A :: A in old(abos) ==> old(KnownAbo(A.name));
    }

    /** The index of the client with an address, or the number of clients. */
    method ClientIndex(addr: Address) returns (i: nat)
      requires Registered()
      ensures i <= noclientinfos && (i < noclientinfos <==> KnownClient(addr))
      ensures i < noclientinfos ==> clients[i].address == addr
    {
      i := 0;
      while i < noclientinfos
        invariant i <= noclientinfos && forall j :: 0 <= j < i ==> clients[j].address != addr
      {
        if clientList[i].address == addr {
          return;
        }
        i := i + 1;
      }
    }

    /** The index of the first abo with a name, or the number of abos. */
    method AboIndex(name: string) returns (i: nat)
      requires Registered()
      ensures i <= noabos && (i < noabos <==> KnownAbo(name))
      ensures i < noabos ==> abos[i].name == name
      ensures forall j :: 0 <= j < i ==> abos[j].name != name
    {
      i := 0;
      while i < noabos
        invariant i <= noabos && forall j :: 0 <= j < i ==> abos[j].name != name
      {
        if aboList[i].name == name {
          return;
        }
        i := i + 1;
      }
    }

    /** Finds the client with an address, or registers a new one. */
    method Client(addr: Address) returns (c: ClientInfo)
      requires Valid() && (noclientinfos < MAX_CLIENTINFOS || KnownClient(addr))
      modifies `noclientinfos, `clients, clientList
      ensures Valid() && c in clients && c.address == addr
      ensures clients == if old(KnownClient(addr)) then old(clients) else old(clients) + [c]
      ensures forall a :: KnownClient(a) <==> old(KnownClient(a)) || a == addr
      ensures c in old(clients) || fresh(c)
    {
      hide Linked, Named, Agrees, Complete;
      var i := ClientIndex(addr);
      if i < noclientinfos {
        return clientList[i];
      }
      c := new ClientInfo(addr, noclientinfos);
      clientList[noclientinfos] := c;
      noclientinfos := noclientinfos + 1;
      clients := clients + [c];
      LinksGrown([], [c]);
    }

    /** Finds the first abo with a name, or registers a new one, whose name may be cut off. */
    method AboNamed(name: string) returns (A: Abo)
      requires Valid() && (noabos < MAX_ABOS || KnownAbo(name))
      modifies `noabos, `abos, `aliased, aboList
      ensures Valid() && A in abos && A.name == StoredName(name)
      ensures abos == if old(KnownAbo(name)) then old(abos) else old(abos) + [A]
      ensures forall n :: KnownAbo(n) <==> old(KnownAbo(n)) || n == A.name
      ensures NamesOf(abos) == LookedUp(NamesOf(old(abos)), name)
      ensures aliased == old(aliased) + Aliases(name)
      ensures if old(KnownAbo(name)) then A in old(abos) else fresh(A) && A.supplier == A.subscriber == []
      ensures |name| < MAX_NAMELEN <==> A.name == name
      ensures |name| >= MAX_NAMELEN ==> fresh(A)
    {
      hide Linked, Named, Agrees, Complete, StoredName, LookedUp;
      Stored(name);
      var i := AboIndex(name);
      ghost var was := abos;
      if i < noabos {
        A := aboList[i];
        assert A == abos[i] && A in abos && |A.name| < MAX_NAMELEN;
      } else {
        A := NewAbo(name);
      }
      NamesGrown(was, name, A);
    }

    /** Registers a new abo behind all others. */
    method NewAbo(name: string) returns (A: Abo)
      requires Valid() && noabos < MAX_ABOS && !KnownAbo(name)
      modifies `noabos, `abos, `aliased, aboList
      ensures Valid() && fresh(A) && A.name == StoredName(name) && A.supplier == A.subscriber == []
      ensures abos == old(abos) + [A] && aliased == old(aliased) + Aliases(name)
    {
      hide Linked, Named, Agrees, Complete, StoredName;
      Stored(name);
      A := new Abo(name, noabos);
      aboList[noabos] := A;
      noabos := noabos + 1;
      abos := abos + [A];
      aliased := aliased + Aliases(name);
      LinksGrown([A], []);
    }

    /** When the links of those who are still registered have changed as a packet says, and only
        those were removed that the packet cuts off, then the links agree with the longer history. */
    twostate lemma Recorded(e: Event)
      requires old(Agrees(history))
      requires old(Complete(history))
      requires history == old(history) + [e] && aliased == old(aliased)
      requires forall c :: c in clients ==> c in old(clients)
      requires forall A :: A in abos ==> A in old(abos)
      requires forall c, A :: c in clients && A in abos && Plain(A.name) ==>
        (A in c.subscription <==> Opens(Subscriber, e, c.address, A.name) ||
                                  (A in old(c.subscription) && !Closes(Subscriber, e, c.address, A.name)))
      requires forall c, A :: c in clients && A in abos && Plain(A.name) ==>
        (A in c.supply <==> Opens(Supplier, e, c.address, A.name) ||
                            (A in old(c.supply) && !Closes(Supplier, e, c.address, A.name)))
      requires forall role, a, n :: Opens(role, e, a, n) && Plain(n) ==> KnownClient(a) && KnownAbo(n)
      requires forall a :: old(KnownClient(a)) ==> KnownClient(a) || forall role, n :: Closes(role, e, a, n)
      requires forall n :: old(KnownAbo(n)) && Plain(n) ==> KnownAbo(n) || forall role, a :: Closes(role, e, a, n)
      ensures Agrees(history) && Complete(history)
    {
      hide Opens, Closes, KnownClient, KnownAbo;
      assert history[..|history| - 1] == old(history);
      forall role, a, n | Holds(role, history, a, n) && Plain(n)
        ensures KnownClient(a) && KnownAbo(n)
      {
        if !Opens(role, e, a, n) {
          assert Holds(role, old(history), a, n) && !Closes(role, e, a, n);
          assert old(KnownClient(a)) && old(KnownAbo(n));
        }
      }
    }

    /** Adds a supplier to both lists. */
    method AddSupply(c: ClientInfo, A: Abo)
      requires SuppliersLinked() && c in clients && A in abos
      modifies c`supply, A`supplier
      ensures SuppliersLinked()
      ensures c.supply == AddTo(old(c.supply), A) && A.supplier == AddTo(old(A.supplier), c)
      ensures forall d, B :: d in clients && B in abos ==>
        (B in d.supply <==> B in old(d.supply) || (d == c && B == A))
    {
      hide NoDup;
      AddToIs(c.supply, A);
      AddToIs(A.supplier, c);
      c.supply := AddTo(c.supply, A);
      A.supplier := AddTo(A.supplier, c);
    }

    /** Removes a supplier from both lists. */
    method CutSupply(c: ClientInfo, A: Abo)
      requires SuppliersLinked() && c in clients && A in abos
      modifies c`supply, A`supplier
      ensures SuppliersLinked()
      ensures c.supply == RemoveFrom(old(c.supply), A) && A.supplier == RemoveFrom(old(A.supplier), c)
      ensures forall d, B :: d in clients && B in abos ==>
        (B in d.supply <==> B in old(d.supply) && !(d == c && B == A))
    {
      hide NoDup, RemoveFrom;
      RemoveFromIs(c.supply, A);
      RemoveFromIs(A.supplier, c);
      c.supply := RemoveFrom(c.supply, A);
      A.supplier := RemoveFrom(A.supplier, c);
    }

    /** Adds a subscriber to both lists. */
    method AddSubscription(c: ClientInfo, A: Abo)
      requires SubscribersLinked() && c in clients && A in abos
      modifies c`subscription, A`subscriber
      ensures SubscribersLinked()
      ensures c.subscription == AddTo(old(c.subscription), A) && A.subscriber == AddTo(old(A.subscriber), c)
      ensures forall d, B :: d in clients && B in abos ==>
        (B in d.subscription <==> B in old(d.subscription) || (d == c && B == A))
    {
      hide NoDup;
      AddToIs(c.subscription, A);
      AddToIs(A.subscriber, c);
      c.subscription := AddTo(c.subscription, A);
      A.subscriber := AddTo(A.subscriber, c);
    }

    /** Removes a subscriber from both lists. */
    method CutSubscription(c: ClientInfo, A: Abo)
      requires SubscribersLinked() && c in clients && A in abos
      modifies c`subscription, A`subscriber
      ensures SubscribersLinked()
      ensures c.subscription == RemoveFrom(old(c.subscription), A) && A.subscriber == RemoveFrom(old(A.subscriber), c)
      ensures forall d, B :: d in clients && B in abos ==>
        (B in d.subscription <==> B in old(d.subscription) && !(d == c && B == A))
    {
      hide NoDup, RemoveFrom;
      RemoveFromIs(c.subscription, A);
      RemoveFromIs(A.subscriber, c);
      c.subscription := RemoveFrom(c.subscription, A);
      A.subscriber := RemoveFrom(A.subscriber, c);
    }

    lemma Known(c: ClientInfo, A: Abo)
      requires c in clients && A in abos && Registered() && Named()
      ensures KnownClient(c.address) && KnownAbo(A.name)
      ensures forall d :: d in clients && d.address == c.address ==> d == c
      ensures forall B :: B in abos && B.name == A.name && Plain(A.name) ==> B == A
    {
    }

    /** Makes or cuts the one link that a packet is about. If its name was cut off, the link is
        that of an abo with another name. */
    method Relink(c: ClientInfo, A: Abo, ghost e: Event, ghost name: string, role: Role, add: bool)
      requires Valid() && c in clients && A in abos
      requires A.name == name || (!Plain(name) && !Plain(A.name))
      requires add ==> OpensOnly(e, role, c.address, name)
      requires !add ==> ClosesOnly(e, role, c.address, name)
      modifies c`supply, A`supplier, c`subscription, A`subscriber, `history
      ensures Valid() && history == old(history) + [e]
      ensures A.subscriber == if role.Supplier? then old(A.subscriber)
                              else if add then AddTo(old(A.subscriber), c) else RemoveFrom(old(A.subscriber), c)
      ensures A.supplier == if role.Subscriber? then old(A.supplier)
                            else if add then AddTo(old(A.supplier), c) else RemoveFrom(old(A.supplier), c)
    {
      hide Registered, Named, Agrees, Complete, KnownAbo, KnownClient, SubscribersLinked, SuppliersLinked, AddTo, RemoveFrom,
        Opens, Closes;
      Known(c, A);
      match role {
        case Supplier =>
          if add {
            AddSupply(c, A);
          } else {
            CutSupply(c, A);
          }
        case Subscriber =>
          if add {
            AddSubscription(c, A);
          } else {
            CutSubscription(c, A);
          }
      }
      history := history + [e];
      SameNames();
      Recorded(e);
    }

    twostate lemma SameNames()
      requires abos == old(abos) && clients == old(clients)
      ensures forall a :: old(KnownClient(a)) ==> KnownClient(a)
      ensures forall n :: old(KnownAbo(n)) ==> KnownAbo(n)
    {
    }

    /** Empties a client's list of supplys by taking the client off each abo's list. */
    method UnlinkClientSuppliers(c: ClientInfo)
      requires SuppliersLinked() && c in clients
      modifies c`supply, abos`supplier
      ensures SuppliersLinked() && c.supply == []
      ensures forall A :: A in abos ==> A.supplier == RemoveFrom(old(A.supplier), c)
      ensures forall d, A :: d in clients && A in abos ==> (A in d.supply <==> A in old(d.supply) && d != c)
    {
      hide NoDup;
      while |c.supply| > 0
        invariant SuppliersLinked()
        invariant forall A :: A in abos ==> A.supplier == if A in c.supply then old(A.supplier) else RemoveFrom(old(A.supplier), c)
        invariant forall d, A :: d in clients && A in abos && d != c ==> (A in d.supply <==> A in old(d.supply))
        decreases |c.supply|
      {
        RemoveFromIs(c.supply, c.supply[0]);
        CutSupply(c, c.supply[0]);
      }
    }

    /** Empties a client's list of subscriptions by taking the client off each abo's list. */
    method UnlinkClientSubscribers(c: ClientInfo)
      requires SubscribersLinked() && c in clients
      modifies c`subscription, abos`subscriber
      ensures SubscribersLinked() && c.subscription == []
      ensures forall A :: A in abos ==> A.subscriber == RemoveFrom(old(A.subscriber), c)
      ensures forall d, A :: d in clients && A in abos ==> (A in d.subscription <==> A in old(d.subscription) && d != c)
    {
      hide NoDup;
      while |c.subscription| > 0
        invariant SubscribersLinked()
        invariant forall A :: A in abos ==> A.subscriber == if A in c.subscription then old(A.subscriber) else RemoveFrom(old(A.subscriber), c)
        invariant forall d, A :: d in clients && A in abos && d != c ==> (A in d.subscription <==> A in old(d.subscription))
        decreases |c.subscription|
      {
        RemoveFromIs(c.subscription, c.subscription[0]);
        CutSubscription(c, c.subscription[0]);
      }
    }

    /** Empties an abo's list of suppliers by taking the abo off each client's list. */
    method UnlinkAboSuppliers(A: Abo)
      requires SuppliersLinked() && A in abos
      modifies A`supplier, clients`supply
      ensures SuppliersLinked() && A.supplier == []
      ensures forall c :: c in clients ==> c.supply == RemoveFrom(old(c.supply), A)
      ensures forall c, B :: c in clients && B in abos ==> (B in c.supply <==> B in old(c.supply) && B != A)
    {
      hide NoDup;
      while |A.supplier| > 0
        invariant SuppliersLinked()
        invariant forall c :: c in clients ==> c.supply == if c in A.supplier then old(c.supply) else RemoveFrom(old(c.supply), A)
        invariant forall c, B :: c in clients && B in abos && B != A ==> (B in c.supply <==> B in old(c.supply))
        decreases |A.supplier|
      {
        RemoveFromIs(A.supplier, A.supplier[0]);
        CutSupply(A.supplier[0], A);
      }
    }

    /** Empties an abo's list of subscribers by taking the abo off each client's list. */
    method UnlinkAboSubscribers(A: Abo)
      requires SubscribersLinked() && A in abos
      modifies A`subscriber, clients`subscription
      ensures SubscribersLinked() && A.subscriber == []
      ensures forall c :: c in clients ==> c.subscription == RemoveFrom(old(c.subscription), A)
      ensures forall c, B :: c in clients && B in abos ==> (B in c.subscription <==> B in old(c.subscription) && B != A)
    {
      hide NoDup;
      while |A.subscriber| > 0
        invariant SubscribersLinked()
        invariant forall c :: c in clients ==> c.subscription == if c in A.subscriber then old(c.subscription) else RemoveFrom(old(c.subscription), A)
        invariant forall c, B :: c in clients && B in abos && B != A ==> (B in c.subscription <==> B in old(c.subscription))
        decreases |A.subscriber|
      {
        RemoveFromIs(A.subscriber, A.subscriber[0]);
        CutSubscription(A.subscriber[0], A);
      }
    }

    /** Takes a client off the list of all clients; the last one moves to its index. */
    method UnlistClient(c: ClientInfo)
      requires Registered() && c in clients
      modifies `clients, `noclientinfos, clientList, clients`myindex
      ensures Registered() && clients == RemoveFrom(old(clients), c)
    {
      hide RemoveFrom;
      var me := 0;
      while me < noclientinfos
        invariant me <= noclientinfos && c !in clients[..me]
      {
        if clientList[me] == c {
          break;
        }
        me := me + 1;
      }
      RemovedAt(clients, c, me);
      noclientinfos := noclientinfos - 1;
      clientList[me] := clientList[noclientinfos];
      clientList[me].myindex := me;
      clientList[noclientinfos] := null;
      clients := RemoveFrom(clients, c);
    }

    /** The rest stays linked when the client that is taken off the list has no links left. */
    method DropClient(c: ClientInfo)
      requires Registered() && c in clients
      requires SuppliersLinked() && SubscribersLinked() && c.supply == [] && c.subscription == []
      modifies `clients, `noclientinfos, clientList, clients`myindex
      ensures Registered() && clients == RemoveFrom(old(clients), c)
      ensures SuppliersLinked() && SubscribersLinked()
      ensures |clients| == |old(clients)| - 1
      ensures forall x :: x in clients <==> x in old(clients) && x != c
    {
      hide SuppliersLinked, SubscribersLinked, RemoveFrom;
      assert NoDup(clients);
      UnlistClient(c);
      RemoveFromIs(old(clients), c);
      assert forall x :: x in clients ==> x in old(clients);
      StillLinked();
    }

    /** Takes an abo off the list of all abos; the last one moves to its index. */
    method UnlistAbo(A: Abo)
      requires Registered() && A in abos
      modifies `abos, `noabos, aboList, abos`myindex
      ensures Registered() && abos == RemoveFrom(old(abos), A)
    {
      hide RemoveFrom;
      var me := 0;
      while me < noabos
        invariant me <= noabos && A !in abos[..me]
      {
        if aboList[me] == A {
          break;
        }
        me := me + 1;
      }
      RemovedAt(abos, A, me);
      noabos := noabos - 1;
      aboList[me] := aboList[noabos];
      aboList[me].myindex := me;
      aboList[noabos] := null;
      abos := RemoveFrom(abos, A);
    }

    /** The rest stays linked when the abo that is taken off the list has no links left. */
    method DropAbo(A: Abo)
      requires Registered() && A in abos
      requires SuppliersLinked() && SubscribersLinked() && A.supplier == [] && A.subscriber == []
      modifies `abos, `noabos, aboList, abos`myindex
      ensures Registered() && abos == RemoveFrom(old(abos), A)
      ensures SuppliersLinked() && SubscribersLinked()
      ensures |abos| == |old(abos)| - 1
      ensures forall x :: x in abos <==> x in old(abos) && x != A
    {
      hide SuppliersLinked, SubscribersLinked, RemoveFrom;
      assert NoDup(abos);
      UnlistAbo(A);
      RemoveFromIs(old(abos), A);
      assert forall x :: x in abos ==> x in old(abos);
      StillLinked();
    }

    /** A client is deleted: unlinked from every abo, and unlisted. */
    method DeleteClient(c: ClientInfo, ghost e: Event)
      requires Valid() && c in clients
      requires forall role, a, n :: !Opens(role, e, a, n)
      requires forall role, a, n :: Closes(role, e, a, n) <==> a == c.address
      modifies `clients, `noclientinfos, `history, clientList, clients`myindex
      modifies c`supply, c`subscription, abos`supplier, abos`subscriber
      ensures Valid() && history == old(history) + [e]
      ensures clients == RemoveFrom(old(clients), c) && |clients| == |old(clients)| - 1
      ensures forall x :: x in clients <==> x in old(clients) && x != c
      ensures forall a :: KnownClient(a) <==> old(KnownClient(a)) && a != c.address
      ensures forall A :: A in abos ==>
        A.supplier == RemoveFrom(old(A.supplier), c) && A.subscriber == RemoveFrom(old(A.subscriber), c)
    {
      hide Registered, Named, Agrees, Complete, KnownClient, KnownAbo, SubscribersLinked, SuppliersLinked, RemoveFrom, Opens,
        Closes, NoDup, HasAddress;
      Alone(c);
      KnownIs();
      ghost var before := clients;
      UnlinkClientSuppliers(c);
      UnlinkClientSubscribers(c);
      DropClient(c);
      WithoutClient(before, clients, c);
      KnownIs();
      history := history + [e];
      Fewer();
      Recorded(e);
    }

    /** An abo is deleted: unlinked from every client, and unlisted. The history tells if its
        name counts. */
    method DeleteAbo(A: Abo, ghost e: Event)
      requires Valid() && A in abos
      requires forall role, a, n :: !Opens(role, e, a, n)
      requires forall role, a, n :: Closes(role, e, a, n) <==> n == A.name
      modifies `abos, `noabos, `history, aboList, abos`myindex
      modifies A`supplier, A`subscriber, clients`supply, clients`subscription
      ensures Valid() && history == if Plain(A.name) then old(history) + [e] else old(history)
      ensures abos == RemoveFrom(old(abos), A) && |abos| == |old(abos)| - 1
      ensures forall x :: x in abos <==> x in old(abos) && x != A
      ensures forall c :: c in clients ==>
        c.supply == RemoveFrom(old(c.supply), A) && c.subscription == RemoveFrom(old(c.subscription), A)
    {
      hide Registered, Agrees, Complete, KnownClient, KnownAbo, SubscribersLinked, SuppliersLinked, RemoveFrom, Opens, Closes, NoDup;
      UnlinkAboSuppliers(A);
      UnlinkAboSubscribers(A);
      DropAbo(A);
      Fewer();
      if Plain(A.name) {
        history := history + [e];
        Recorded(e);
      } else {
        Unrecorded(A);
      }
    }

    /** An abo whose name does not count leaves no trace. */
    twostate lemma Unrecorded(A: Abo)
      requires old(Agrees(history))
      requires old(Complete(history))
      requires unchanged(`history, `aliased, `clients) && !Plain(A.name)
      requires forall B :: B in abos ==> B in old(abos)
      requires forall B :: B in old(abos) && B != A ==> B in abos
      requires forall c, B :: c in clients && B in abos ==>
        (B in c.supply <==> B in old(c.supply)) && (B in c.subscription <==> B in old(c.subscription))
      ensures Agrees(history) && Complete(history)
    {
      hide Holds;
      forall n | old(KnownAbo(n)) && Plain(n)
        ensures KnownAbo(n)
      {
        var B :| B in old(abos) && B.name == n;
        assert B in abos;
      }
    }

    lemma AloneAbo(A: Abo)
      requires Named() && A in abos && Plain(A.name)
      ensures forall B :: B in abos && B.name == A.name ==> B == A
    {
    }

    twostate lemma Fewer()
      ensures forall a :: old(KnownClient(a)) ==>
        KnownClient(a) || exists c :: c in old(clients) && c !in clients && c.address == a
      ensures forall n :: old(KnownAbo(n)) ==>
        KnownAbo(n) || exists A :: A in old(abos) && A !in abos && A.name == n
    {
    }

    lemma KnownIs()
      ensures forall a :: KnownClient(a) <==> HasAddress(clients, a)
    {
    }

    lemma Alone(c: ClientInfo)
      requires Registered() && c in clients
      ensures forall d :: d in clients && d.address == c.address ==> d == c
    {
    }

    /** Removing what has no links leaves the rest linked. */
    twostate lemma StillLinked()
      requires old(SuppliersLinked())
      requires old(SubscribersLinked())
      requires forall c :: c in clients ==> c in old(clients) && c.supply == old(c.supply) && c.subscription == old(c.subscription)
      requires forall A :: A in abos ==> A in old(abos) && A.supplier == old(A.supplier) && A.subscriber == old(A.subscriber)
      requires forall c :: c in old(clients) && c !in clients ==> old(c.supply) == [] && old(c.subscription) == []
      requires forall A :: A in old(abos) && A !in abos ==> old(A.supplier) == [] && old(A.subscriber) == []
      ensures SuppliersLinked() && SubscribersLinked()
    {
      hide NoDup;
    }

    // ----- processing packets -----

    /** Packets to 0.0.0.0 are dropped. */
    method SendPacket(packet: Sent)
      modifies `outbox
      ensures outbox == if packet.to.ip == 0 then old(outbox) else old(outbox) + [packet]
    {
      if packet.to.ip == 0 {
        return;
      }
      outbox := outbox + [packet];
    }

    ghost function Targets(A: Abo, role: Role): seq<ClientInfo>
      reads A
    {
      if role.Supplier? then A.supplier else A.subscriber
    }

    /** The clients on an abo's list are those that the history says are linked to it. */
    lemma TargetsAreLinked(A: Abo, role: Role)
      requires Valid() && A in abos && Plain(A.name)
      ensures Lists(Addresses(Targets(A, role)), role, history, A.name)
      ensures forall c :: c in Targets(A, role) ==> c in clients
    {
      hide Holds;
      var ts := Targets(A, role);
      assert NoDup(ts);
      assert forall j :: 0 <= j < |ts| ==> ts[j] in ts && ts[j] in clients;
      forall i, j | 0 <= i < j < |ts|
        ensures ts[i].address != ts[j].address
      {
        assert ts[i] != ts[j];
      }
      forall b | Holds(role, history, b, A.name)
        ensures b in Addresses(ts)
      {
        assert KnownClient(b);
        var c :| c in clients && c.address == b;
        assert c in ts;
      }
    }

    /** Sends data to everybody on an abo's list except the client that it came from. */
    method FanOut(A: Abo, client: ClientInfo, role: Role, name: string, data: string) returns (ghost sent: seq<Sent>)
      requires Valid() && A in abos && client in clients
      modifies `outbox
      ensures outbox == old(outbox) + sent
      ensures forall k :: 0 <= k < |sent| ==> sent[k] == Sent(sent[k].to, role, name, data)
      ensures Receivers(sent) == Others(Addresses(Targets(A, role)), client.address)
      ensures Plain(name) && A.name == name ==> FannedOut(sent, role, history, client.address, name, data)
    {
      hide Holds, SubscribersLinked, SuppliersLinked, Agrees, Complete, Others, FannedOut, Lists, Registered, Named;
      var targets := if role.Supplier? then A.supplier else A.subscriber;
      ghost var addrs := Addresses(targets);
      TargetsAreClients(A, role);
      assert targets == Targets(A, role);
      Alone(client);
      sent := [];
      NoOthers(client.address);
      for i := 0 to |targets|
        invariant outbox == old(outbox) + sent
        invariant Receivers(sent) == Others(addrs[..i], client.address)
        invariant forall k :: 0 <= k < |sent| ==> sent[k] == Sent(sent[k].to, role, name, data)
      {
        OthersStep(addrs, i, client.address);
        assert targets[i] == client <==> addrs[i] == client.address;
        if targets[i] != client {
          SendPacket(Sent(targets[i].address, role, name, data));
          if targets[i].address.ip != 0 {
            sent := sent + [Sent(targets[i].address, role, name, data)];
          }
        }
      }
      assert addrs[..|addrs|] == addrs;
      if Plain(name) && A.name == name {
        TargetsAreLinked(A, role);
        OthersFannedOut(sent, addrs, role, history, client.address, name, data);
      }
    }

    lemma TargetsAreClients(A: Abo, role: Role)
      requires Valid() && A in abos
      ensures forall c :: c in Targets(A, role) ==> c in clients
    {
    }

    /** A packet that neither opens nor closes a link of anybody registered changes no link. */
    ghost method Note(e: Event)
      requires Valid()
      requires forall role, a, n :: !Opens(role, e, a, n)
      requires forall role, a, n :: Closes(role, e, a, n) && Plain(n) ==> !KnownClient(a) || !KnownAbo(n)
      modifies `history
      ensures Valid() && history == old(history) + [e]
    {
      hide Registered, Agrees, Complete, SubscribersLinked, SuppliersLinked, Opens, Closes, KnownClient, KnownAbo;
      assert forall c, A :: c in clients && A in abos ==> KnownClient(c.address) && KnownAbo(A.name) by {
        AllKnown();
      }
      history := history + [e];
      SameNames();
      Recorded(e);
    }

    lemma AllKnown()
      ensures forall c :: c in clients ==> KnownClient(c.address)
      ensures forall A :: A in abos ==> KnownAbo(A.name)
    {
    }

    /** Deletes the abo of that name while going through the list of all abos. */
    method RemoveAbos(name: string, ghost e: Event)
      requires Valid() && e.kind == Management(RemoveAbo(name)) && name != "unsupplied"
      modifies `abos, `noabos, `history, aboList, (set A | A in abos), (set c | c in clients)
      ensures Valid() && history == old(history) + [e] && (Plain(name) ==> !KnownAbo(name))
      ensures forall A :: A in abos ==> A in old(abos)
      ensures clients == old(clients) && forall A :: A in old(abos) && A.name != name ==> A in abos
    {
      hide Agrees, Complete, SubscribersLinked, SuppliersLinked, RemoveFrom;
      ghost var removed := false;
      var i := 0;
      while i < noabos
        invariant Valid() && (forall A :: A in abos ==> A in old(abos)) && clients == old(clients)
        invariant forall A :: A in old(abos) && A.name != name ==> A in abos
        invariant if removed then Plain(name) && history == old(history) + [e] && !KnownAbo(name) else history == old(history)
        invariant !removed && Plain(name) ==> forall j :: 0 <= j < i && j < noabos ==> abos[j].name != name
        decreases noabos - i
      {
        if aboList[i].name == name {
          assert aboList[i] == abos[i];
          if Plain(name) {
            AloneAbo(abos[i]);
          }
          DeleteAbo(aboList[i], e);
          removed := Plain(name);
        }
        i := i + 1;
      }
      if !removed {
        Note(e);
      }
    }

    /** Deletes the client with that address while going through the list of all clients. */
    method RemoveClients(addr: Address, ghost e: Event)
      requires Valid() && e.kind == Management(RemoveClient(addr))
      modifies `clients, `noclientinfos, `history, clientList, (set A | A in abos), (set c | c in clients)
      ensures Valid() && history == old(history) + [e] && !KnownClient(addr)
      ensures forall c :: c in clients ==> c in old(clients)
      ensures abos == old(abos) && forall c :: c in old(clients) && c.address != addr ==> c in clients
    {
      hide Agrees, Complete, SubscribersLinked, SuppliersLinked, RemoveFrom;
      ghost var removed := false;
      var i := 0;
      while i < noclientinfos
        invariant Valid() && (forall c :: c in clients ==> c in old(clients)) && abos == old(abos)
        invariant forall c :: c in old(clients) && c.address != addr ==> c in clients
        invariant if removed then history == old(history) + [e] && !KnownClient(addr) else history == old(history)
        invariant !removed ==> forall j :: 0 <= j < i && j < noclientinfos ==> clients[j].address != addr
        decreases noclientinfos - i
      {
        if clientList[i].address == addr {
          assert clientList[i] == clients[i];
          Alone(clients[i]);
          DeleteClient(clientList[i], e);
          removed := true;
        }
        i := i + 1;
      }
      if !removed {
        Note(e);
      }
    }

    /** Whether there is room for the client and the abo that a packet may add. The command that
        removes all unsupplied abos at once is not one of the model's. */
    ghost predicate Room(e: Event)
      reads `clients, `noclientinfos, `abos, `noabos
    {
      && e.kind != Management(RemoveAbo("unsupplied"))
      && (noclientinfos < MAX_CLIENTINFOS || KnownClient(e.source))
      && (NameOf(e).Some? ==> noabos < MAX_ABOS || KnownAbo(NameOf(e).value))
    }

    method HasRoom(e: Event) returns (r: bool)
      requires Registered()
      ensures r == Room(e)
    {
      var i := ClientIndex(e.source);
      r := e.kind != Management(RemoveAbo("unsupplied")) && (noclientinfos < MAX_CLIENTINFOS || i < noclientinfos);
      if r && NameOf(e).Some? {
        var j := AboIndex(NameOf(e).value);
        r := noabos < MAX_ABOS || j < noabos;
      }
    }

    /** Carries out a management command. */
    method Manage(e: Event)
      requires Valid() && Room(e) && e.kind.Management?
      modifies this, aboList, clientList, (set A | A in abos), (set c | c in clients)
      ensures Valid() && history == old(history) + [e] && outbox == old(outbox)
      ensures aliased == old(aliased) + NameAliases(e)
      ensures forall c :: c in clients ==> c in old(clients)
      ensures forall A :: A in abos ==> A in old(abos) || fresh(A)
      ensures forall a :: KnownClient(a) <==> old(KnownClient(a)) && e.kind.command != RemoveClient(a)
      ensures forall n :: Plain(n) ==>
                (KnownAbo(n) <==> (old(KnownAbo(n)) || NameOf(e) == Some(n)) && e.kind.command != RemoveAbo(n))
    {
      hide Registered, Named, Agrees, Complete, SubscribersLinked, SuppliersLinked, Opens, Closes, Holds;
      EventEffects(e);
      match e.kind.command {
        case RemoveAbo(name) =>
          RemoveAbos(name, e);
        case RemoveClient(addr) =>
          RemoveClients(addr, e);
        case UseAbo(name) =>
          var A := AboNamed(name);
          Note(e);
        case OtherCommand =>
          Note(e);
      }
    }

    /** Processes a packet about an abo. Sending data falls through to registering as its supplier. */
    method ProcessNamed(client: ClientInfo, e: Event) returns (ghost sent: seq<Sent>, ghost A: Abo)
      requires Valid() && Room(e) && NameOf(e).Some? && !e.kind.Management?
      requires client in clients && client.address == e.source && aliased == Aliased(history)
      modifies this, aboList, clientList, (set A | A in abos), (set c | c in clients)
      ensures Valid() && history == old(history) + [e] && outbox == old(outbox) + sent
      ensures aliased == old(aliased) + NameAliases(e)
      ensures Routed(sent, old(history), e)
      ensures clients == old(clients) && forall A :: A in abos ==> A in old(abos) || fresh(A)
      ensures forall a :: KnownClient(a) <==> old(KnownClient(a))
      ensures forall n :: Plain(n) ==> (KnownAbo(n) <==> old(KnownAbo(n)) || NameOf(e) == Some(n))
      ensures A in abos && A.name == StoredName(NameOf(e).value)
      ensures abos == if old(KnownAbo(NameOf(e).value)) then old(abos) else old(abos) + [A]
      ensures e.kind.Subscribe? ==> client in A.subscriber
      ensures e.kind.Data? && A in old(abos) ==> Receivers(sent) == Others(Addresses(old(A.subscriber)), e.source)
    {
      hide Registered, Named, Agrees, Complete, SubscribersLinked, SuppliersLinked, Opens, Closes, Holds, FannedOut, Valid,
        Others, StoredName, Aliased, RemoveFrom;
      EventEffects(e);
      sent := [];
      var name := NameOf(e).value;
      Stored(name);
      var B := AboNamed(name);
      A := B;
      NoOthers(e.source);
      assert Targets(B, Subscriber) == B.subscriber && Targets(B, Supplier) == B.supplier;
      if e.kind.SetData? {
        sent := FanOut(B, client, Supplier, name, e.kind.data);
        OthersMissSource(sent, Addresses(B.supplier), e.source);
      } else if e.kind.Data? {
        sent := FanOut(B, client, Subscriber, name, e.kind.data);
        OthersMissSource(sent, Addresses(B.subscriber), e.source);
      }
      var role := if e.kind.Subscribe? || e.kind.Unsubscribe? then Subscriber else Supplier;
      Relink(client, B, e, name, role, !e.kind.Unsubscribe? && !e.kind.Unsupply?);
    }

    /** Registers the client that a packet comes from, whatever its type, and then processes it. */
    method Handle(e: Event) returns (ghost sent: seq<Sent>)
      requires Valid() && Room(e) && aliased == Aliased(history)
      modifies this, aboList, clientList, (set A | A in abos), (set c | c in clients)
      ensures Valid() && history == old(history) + [e] && outbox == old(outbox) + sent
      ensures aliased == Aliased(history)
      ensures Routed(sent, old(history), e)
      ensures forall a :: KnownClient(a) <==>
                && (old(KnownClient(a)) || e.source == a)
                && !(e.source == a && e.kind == ClientTerm) && e.kind != Management(RemoveClient(a))
      ensures forall n :: Plain(n) ==>
                (KnownAbo(n) <==> (old(KnownAbo(n)) || NameOf(e) == Some(n)) && e.kind != Management(RemoveAbo(n)))
      ensures forall c :: c in clients ==> c in old(clients) || fresh(c)
      ensures forall A :: A in abos ==> A in old(abos) || fresh(A)
    {
      hide Valid, Opens, Closes, Routed, NameOf, KnownClient, KnownAbo, Aliased;
      NotRouted(e);
      AliasedStep(history, e);
      sent := [];
      EventEffects(e);
      WithName(e);
      var client := Client(e.source);
      ghost var A;
      match e.kind {
        case Management(_) =>
          Manage(e);
        case ClientTerm =>
          DeleteClient(client, e);
        case Unknown =>
          Note(e);
        case _ =>
          sent, A := ProcessNamed(client, e);
      }
    }

    /** Processes one packet. Data goes to exactly those whom the history says are linked, and
        the lists of clients and abos stay what the longer history says. */
    method Process(e: Event) returns (ghost sent: seq<Sent>)
      requires Valid() && Room(e) && aliased == Aliased(history) && Present(history)
      modifies this, aboList, clientList, (set A | A in abos), (set c | c in clients)
      ensures Valid() && history == old(history) + [e] && outbox == old(outbox) + sent
      ensures aliased == Aliased(history) && Present(history)
      ensures Routed(sent, old(history), e)
      ensures forall c :: c in clients ==> c in old(clients) || fresh(c)
      ensures forall A :: A in abos ==> A in old(abos) || fresh(A)
    {
      hide Valid, Routed, NameOf, KnownClient, KnownAbo, ClientPresent, AboPresent, Aliased, Room, Plain;
      AliasedGrows(history, e);
      sent := Handle(e);
      forall a
        ensures KnownClient(a) <==> ClientPresent(history, a)
      {
        ClientPresentStep(old(history), e, a);
      }
      forall n | Plain(n)
        ensures KnownAbo(n) <==> AboPresent(history, n)
      {
        AboPresentStep(old(history), e, n);
        assert old(Plain(n)) by { PlainBefore(n); }
      }
    }

    twostate lemma PlainBefore(n: string)
      requires old(aliased) <= aliased && Plain(n)
      ensures old(Plain(n))
    {
    }

    lemma StartPresent()
      requires abos == [] && clients == [] && history == []
      ensures Present(history) && Aliased(history) == {}
    {
    }

    lemma PresentIs()
      requires Present(history) && aliased == Aliased(history)
      ensures forall a :: KnownClient(a) <==> ClientPresent(history, a)
      ensures forall m :: |m| <= 255 && m !in Aliased(history) ==> (KnownAbo(m) <==> AboPresent(history, m))
    {
      hide KnownClient, KnownAbo, ClientPresent, AboPresent, Aliased;
    }

    lemma Full(e: Event)
      requires Valid() && !Room(e) && e.kind != Management(RemoveAbo("unsupplied"))
      ensures |clients| == 128 || |abos| == 128
    {
    }

    lemma Counts()
      requires Valid()
      ensures noclientinfos == |clients| && noabos == |abos|
    {
    }

    /** Processes one packet after the other, as long as there is room for what they add. */
    method Serve(packets: seq<Event>) returns (n: nat, ghost log: seq<seq<Sent>>)
      requires Valid() && history == [] && outbox == [] && aliased == {} && abos == [] && clients == []
      modifies this, aboList, clientList, (set A | A in abos), (set c | c in clients)
      ensures n <= |packets| && (n < |packets| ==> !Room(packets[n]))
      ensures n < |packets| && packets[n].kind != Management(RemoveAbo("unsupplied")) ==> |clients| == 128 || |abos| == 128
      ensures Valid() && history == packets[..n] && outbox == Flatten(log)
      ensures forall a :: KnownClient(a) <==> ClientPresent(packets[..n], a)
      ensures forall m :: |m| <= 255 && m !in Aliased(packets[..n]) ==> (KnownAbo(m) <==> AboPresent(packets[..n], m))
      ensures |log| == n && forall i :: 0 <= i < n ==> Routed(log[i], packets[..i], packets[i])
    {
      hide Linked, Named, Agrees, Complete, Routed, NameOf, Room, Present, ClientPresent, AboPresent, Aliased, KnownAbo;
      StartPresent();
      n, log := 0, [];
      var more := false;
      if |packets| > 0 {
        more := HasRoom(packets[0]);
      }
      while more
        invariant n <= |packets| && Valid() && history == packets[..n] && outbox == Flatten(log)
        invariant aliased == Aliased(history) && Present(history)
        invariant more <==> n < |packets| && Room(packets[n])
        invariant |log| == n && forall i :: 0 <= i < n ==> Routed(log[i], packets[..i], packets[i])
        invariant forall c :: c in clients ==> c in old(clients) || fresh(c)
        invariant forall A :: A in abos ==> A in old(abos) || fresh(A)
        decreases |packets| - n
      {
        ghost var sent := Process(packets[n]);
        FlattenStep(log, sent);
        log := log + [sent];
        n := n + 1;
        more := n < |packets|;
        if more {
          more := HasRoom(packets[n]);
        }
      }
      if n < |packets| && packets[n].kind != Management(RemoveAbo("unsupplied")) {
        Full(packets[n]);
      }
      PresentIs();
    }
  }

  lemma AliasedStep(h: seq<Event>, e: Event)
    ensures Aliased(h + [e]) == Aliased(h) + NameAliases(e)
  {
    assert (h + [e])[..|h|] == h;
  }

  lemma AliasedGrows(h: seq<Event>, e: Event)
    ensures Aliased(h) <= Aliased(h + [e])
  {
    AliasedStep(h, e);
  }

  lemma WithName(e: Event)
    ensures NameOf(e).Some? ==> !e.kind.ClientTerm? && !e.kind.Unknown?
    ensures NameOf(e).None? ==> e.kind.ClientTerm? || e.kind.Unknown? || e.kind.Management?
  {
  }

  lemma Misrouted(sent: seq<Sent>, listed: seq<ClientInfo>, c: ClientInfo, b: Address, n: string)
    requires |n| >= MAX_NAMELEN && c in listed && c.address != b && c.address.ip != 0
    requires Receivers(sent) == Others(Addresses(listed), b)
    requires Routed(sent, [Event(c.address, Subscribe(n))], Event(b, Data(StoredName(n), "data")))
    ensures Sent(c.address, Subscriber, StoredName(n), "data") in sent
  {
    hide StoredName, Others;
    Stored(n);
    var k :| 0 <= k < |listed| && listed[k] == c;
    assert Addresses(listed)[k] == c.address;
    OthersKeep(Addresses(listed), b, c.address);
    var i :| 0 <= i < |sent| && Receivers(sent)[i] == c.address;
    AliasedStep([], Event(c.address, Subscribe(n)));
    assert [] + [Event(c.address, Subscribe(n))] == [Event(c.address, Subscribe(n))];
    assert sent[i] == Sent(c.address, Subscriber, StoredName(n), "data");
  }

  /** A name of 256 characters or more shares its abo with nobody, but leaves behind one that a
      shorter name can find: a has subscribed n, and gets what b sends under another name. */
  method AliasMisroutes(a: Address, b: Address, n: string) returns (outbox: seq<Sent>)
    requires |n| >= MAX_NAMELEN && a != b && a.ip != 0
    ensures var p := StoredName(n);
            !Holds(Subscriber, [Event(a, Subscribe(n))], a, p) && Sent(a, Subscriber, p, "data") in outbox
  {
    hide StoredName, Server.Valid, Routed, Aliased, Addresses, Others, Holds;
    Stored(n);
    NothingAliased();
    var p := StoredName(n);
    var server := new Server();
    server.Counts();
    var c := server.Client(a);
    server.Counts();
    ghost var first, second, A, B;
    assert !server.KnownAbo(n);
    first, A := server.ProcessNamed(c, Event(a, Subscribe(n)));
    AliasedStep([], Event(a, Subscribe(n)));
    assert [] + [Event(a, Subscribe(n))] == [Event(a, Subscribe(n))];
    assert server.KnownAbo(p);
    server.Counts();
    var d := server.Client(b);
    ghost var listed := A.subscriber;
    second, B := server.ProcessNamed(d, Event(b, Data(p, "data")));
    assert B == A;
    Misrouted(second, listed, c, b, n);
    NotHeld(a, n);
    outbox := server.outbox;
  }

  lemma NothingAliased()
    ensures Aliased([]) == {}
  {
  }

  lemma NotHeld(a: Address, n: string)
    requires |n| >= MAX_NAMELEN
    ensures !Holds(Subscriber, [Event(a, Subscribe(n))], a, StoredName(n))
  {
    hide StoredName;
    Stored(n);
    assert [Event(a, Subscribe(n))][..0] == [];
  }

  /** What a packet makes the server send: data to exactly those linked, if its name is neither
      too long nor what a longer name was cut off to; to nobody if it is too long. */
  ghost predicate Routed(sent: seq<Sent>, h: seq<Event>, e: Event) {
    match e.kind
    case Data(n, data) => RoutedTo(sent, Subscriber, h, e.source, n, data)
    case SetData(n, data) => RoutedTo(sent, Supplier, h, e.source, n, data)
    case _ => sent == []
  }

  ghost predicate RoutedTo(sent: seq<Sent>, role: Role, h: seq<Event>, source: Address, n: string, data: string) {
    if |n| >= 256 then sent == []
    else if n !in Aliased(h) then FannedOut(sent, role, h, source, n, data)
    else forall k :: 0 <= k < |sent| ==> sent[k] == Sent(sent[k].to, role, n, data) && sent[k].to != source
  }

  lemma NotRouted(e: Event)
    ensures !e.kind.Data? && !e.kind.SetData? ==> forall h :: Routed([], h, e)
  {
  }

  function Flatten<T>(log: seq<seq<T>>): seq<T> {
    if log == [] then [] else Flatten(log[..|log| - 1]) + log[|log| - 1]
  }

  lemma FlattenStep<T>(log: seq<seq<T>>, last: seq<T>)
    ensures Flatten(log + [last]) == Flatten(log) + last
  {
    assert (log + [last])[..|log|] == log;
  }

  /** Which links the kinds of packet decide about. */
  lemma EventEffects(e: Event)
    ensures e.kind.Data? || e.kind.SetData? || e.kind.Supply? ==>
              OpensOnly(e, Supplier, e.source, e.kind.name)
    ensures e.kind.Subscribe? ==> OpensOnly(e, Subscriber, e.source, e.kind.name)
    ensures e.kind.Unsupply? ==> ClosesOnly(e, Supplier, e.source, e.kind.name)
    ensures e.kind.Unsubscribe? ==> ClosesOnly(e, Subscriber, e.source, e.kind.name)
    ensures e.kind.Management? || e.kind.ClientTerm? || e.kind.Unknown? ==>
              forall role, a, n :: !Opens(role, e, a, n)
    ensures e.kind.ClientTerm? ==> forall role, a, n :: Closes(role, e, a, n) <==> a == e.source
    ensures e.kind.Management? && e.kind.command.RemoveAbo? ==>
              forall role, a, n :: Closes(role, e, a, n) <==> n == e.kind.command.name
    ensures e.kind.Management? && e.kind.command.RemoveClient? ==>
              forall role, a, n :: Closes(role, e, a, n) <==> a == e.kind.command.address
    ensures e.kind.Unknown? || (e.kind.Management? && (e.kind.command.UseAbo? || e.kind.command.OtherCommand?)) ==>
              forall role, a, n :: !Closes(role, e, a, n)
  {
  }

  ghost function Addresses(cs: seq<ClientInfo>): (r: seq<Address>)
    ensures |r| == |cs|
    ensures forall i :: 0 <= i < |cs| ==> r[i] == cs[i].address
  {
    seq(|cs|, i requires 0 <= i < |cs| => cs[i].address)
  }

  /** These are, once each, the addresses that the history says are linked. */
  ghost predicate Lists(addrs: seq<Address>, role: Role, h: seq<Event>, n: string) {
    && (forall i, j :: 0 <= i < j < |addrs| ==> addrs[i] != addrs[j])
    && (forall j :: 0 <= j < |addrs| ==> Holds(role, h, addrs[j], n))
    && (forall b :: Holds(role, h, b, n) ==> b in addrs)
  }

  /** The addresses that a packet from source is really sent to. */
  function Others(addrs: seq<Address>, source: Address): seq<Address> {
    if addrs == [] then []
    else
      var before, last := Others(addrs[..|addrs| - 1], source), addrs[|addrs| - 1];
      if last == source || last.ip == 0 then before else before + [last]
  }

  lemma {:induction false} OthersMiss(addrs: seq<Address>, source: Address)
    ensures source !in Others(addrs, source)
  {
    if addrs != [] {
      OthersMiss(addrs[..|addrs| - 1], source);
    }
  }

  lemma OthersMissSource(sent: seq<Sent>, addrs: seq<Address>, source: Address)
    requires Receivers(sent) == Others(addrs, source)
    ensures forall k :: 0 <= k < |sent| ==> sent[k].to != source
    ensures addrs == [] ==> sent == []
  {
    OthersMiss(addrs, source);
    assert forall k :: 0 <= k < |sent| ==> sent[k].to == Receivers(sent)[k] && Receivers(sent)[k] in Receivers(sent);
  }

  lemma {:induction false} OthersKeep(addrs: seq<Address>, source: Address, b: Address)
    requires b in addrs && b != source && b.ip != 0
    ensures b in Others(addrs, source)
  {
    if addrs[|addrs| - 1] != b {
      OthersKeep(addrs[..|addrs| - 1], source, b);
    }
  }

  lemma NoOthers(source: Address)
    ensures Others([], source) == []
  {
  }

  lemma OthersStep(addrs: seq<Address>, i: nat, source: Address)
    requires i < |addrs|
    ensures Others(addrs[..i + 1], source) ==
            if addrs[i] == source || addrs[i].ip == 0 then Others(addrs[..i], source)
            else Others(addrs[..i], source) + [addrs[i]]
  {
    assert addrs[..i + 1][..i] == addrs[..i];
  }

  lemma {:induction false} OthersAre(addrs: seq<Address>, source: Address)
    requires NoDup(addrs)
    ensures NoDup(Others(addrs, source))
    ensures forall b :: b in Others(addrs, source) <==> b in addrs && b != source && b.ip != 0
  {
    if addrs != [] {
      OthersAre(addrs[..|addrs| - 1], source);
      assert addrs == addrs[..|addrs| - 1] + [addrs[|addrs| - 1]];
    }
  }

  lemma OthersFannedOut(sent: seq<Sent>, addrs: seq<Address>, role: Role, h: seq<Event>, source: Address, n: string, data: string)
    requires Receivers(sent) == Others(addrs, source)
    requires forall k :: 0 <= k < |sent| ==> sent[k] == Sent(sent[k].to, role, n, data)
    requires Lists(addrs, role, h, n)
    ensures FannedOut(sent, role, h, source, n, data)
  {
    hide Holds, Others;
    OthersAre(addrs, source);
    assert forall k :: 0 <= k < |sent| ==> sent[k].to == Receivers(sent)[k];
  }
}
