/** Discovering services: from the raw listing to a keyed, ordered collection. */
module Discovery {
  import opened Prelude
  import opened Names
  import opened Sessions

  datatype MethodDescriptor = MethodDescriptor(name: string, jsonrpcMethod: string)

  datatype Descriptor = Descriptor(
    service: string, controller: string, rpcEndpoint: string, schemaEndpoint: string, methods: seq<MethodDescriptor>)
  {
    function MethodNames(): (r: seq<string>)
      ensures |r| == |methods|
      ensures forall i :: 0 <= i < |methods| ==> r[i] == methods[i].jsonrpcMethod
    {
      seq(|methods|, i requires 0 <= i < |methods| => methods[i].jsonrpcMethod)
    }
  }

  /** A client port opened on the rpc endpoint of this name. */
  datatype Client = Client(endpoint: string)

  datatype Service = Service(
    serviceName: string, controllerName: string, rpcEndpoint: string, schemaEndpoint: string,
    methods: seq<string>, attributes: map<string, string>,
    descriptor: Option<Descriptor>, rpcService: Option<string>, client: Option<Client>)

  // ---------------------------------------------------------------- one listing entry

  /** Something read from iceoryx2, or the exception raised instead. */
  datatype Read<+T> = Value(value: T) | Fails

  datatype Details = Details(
    requestResponse: Read<bool>, attributes: Read<seq<(string, string)>>, name: Read<string>)

  function Dict(pairs: seq<(string, string)>): map<string, string> {
    if pairs == [] then map[]
    else Dict(pairs[..|pairs| - 1])[pairs[|pairs| - 1].0 := pairs[|pairs| - 1].1]
  }

  method AttributeSetToDict(pairs: seq<(string, string)>) returns (result: map<string, string>)
    ensures result == Dict(pairs)
  {
    result := map[];
    for i := 0 to |pairs|
      invariant result == Dict(pairs[..i])
    {
      assert pairs[..i + 1][..i] == pairs[..i];
      result := result[pairs[i].0 := pairs[i].1];
    }
    assert pairs[..|pairs|] == pairs;
  }

  /** A repeated key keeps its last value. */
  lemma {:induction false} DictKeepsLast(pairs: seq<(string, string)>, i: nat)
    requires i < |pairs|
    requires forall j :: i < j < |pairs| ==> pairs[j].0 != pairs[i].0
    ensures pairs[i].0 in Dict(pairs) && Dict(pairs)[pairs[i].0] == pairs[i].1
  {
    var last := |pairs| - 1;
    if i < last {
      assert pairs[..last][i] == pairs[i];
      DictKeepsLast(pairs[..last], i);
    }
  }

  predicate HasKey(pairs: seq<(string, string)>, key: string) {
    exists i :: 0 <= i < |pairs| && pairs[i].0 == key
  }

  /** The keys are those of the pairs, no more and no fewer. */
  lemma {:induction false} DictHasKeyIff(pairs: seq<(string, string)>, key: string)
    ensures key in Dict(pairs) <==> HasKey(pairs, key)
  {
    if pairs != [] {
      var last := |pairs| - 1;
      DictHasKeyIff(pairs[..last], key);
      if HasKey(pairs[..last], key) {
        var i :| 0 <= i < last && pairs[..last][i].0 == key;
        assert pairs[i].0 == key;
      } else if pairs[last].0 != key {
        assert forall i :: 0 <= i < last ==> pairs[i] == pairs[..last][i];
      }
    }
  }

  function Get(attrs: map<string, string>, key: string): string {
    if key in attrs then attrs[key] else ""
  }

  function Advertised(attrs: map<string, string>): seq<string> {
    DropEmpty(Split(Get(attrs, "rpc.methods"), ','))
  }

  /** The service a listing entry describes; None where the entry is skipped, be it
      foreign, incomplete, or raising. */
  function Recognise(d: Details): Option<Service> {
    if d.requestResponse != Value(true) || d.attributes.Fails? then None
    else
      var attrs := Dict(d.attributes.value);
      if Get(attrs, "rpc.protocol") != "jsonrpc-2.0" || Get(attrs, "rpc.kind") != "rpc" then None
      else if d.name.Fails? || Get(attrs, "rpc.schema") == "" then None
      else
        Some(Service(
               Get(attrs, "rpc.service"), Get(attrs, "rpc.controller"), d.name.value, Get(attrs, "rpc.schema"),
               Advertised(attrs), attrs, None, None, None))
  }

  /** The last pair of this key has this value. */
  ghost predicate Says(pairs: seq<(string, string)>, key: string, value: string) {
    exists i :: 0 <= i < |pairs| && pairs[i] == (key, value) && forall j :: i < j < |pairs| ==> pairs[j].0 != key
  }

  /** The same, where a key that no pair has stands for the empty text. */
  ghost predicate SaysOrBlank(pairs: seq<(string, string)>, key: string, value: string) {
    if HasKey(pairs, key) then Says(pairs, key, value) else value == ""
  }

  lemma LastPairExists(pairs: seq<(string, string)>, key: string) returns (i: nat)
    requires HasKey(pairs, key)
    ensures i < |pairs| && pairs[i].0 == key && forall j :: i < j < |pairs| ==> pairs[j].0 != key
  {
    i := |pairs| - 1;
    while pairs[i].0 != key
      invariant i < |pairs| && forall j :: i < j < |pairs| ==> pairs[j].0 != key
      decreases i
    {
      i := i - 1;
    }
  }

  lemma GetIff(pairs: seq<(string, string)>, key: string, value: string)
    ensures Get(Dict(pairs), key) == value <==> SaysOrBlank(pairs, key, value)
  {
    DictHasKeyIff(pairs, key);
    if HasKey(pairs, key) {
      var i := LastPairExists(pairs, key);
      DictKeepsLast(pairs, i);
      if Says(pairs, key, value) {
        var k :| 0 <= k < |pairs| && pairs[k] == (key, value) && forall j :: k < j < |pairs| ==> pairs[j].0 != key;
        DictKeepsLast(pairs, k);
      }
      hide Dict;
      assert pairs[i] == (key, pairs[i].1);
    }
  }

  /** The entry advertises this service. */
  ghost predicate Advertises(d: Details, s: Service) {
    && d.requestResponse == Value(true) && d.attributes.Value? && d.name == Value(s.rpcEndpoint)
    && var pairs := d.attributes.value;
       && SaysOrBlank(pairs, "rpc.protocol", "jsonrpc-2.0") && SaysOrBlank(pairs, "rpc.kind", "rpc")
       && SaysOrBlank(pairs, "rpc.service", s.serviceName) && SaysOrBlank(pairs, "rpc.controller", s.controllerName)
       && s.schemaEndpoint != "" && SaysOrBlank(pairs, "rpc.schema", s.schemaEndpoint)
       && (exists list :: SaysOrBlank(pairs, "rpc.methods", list) && s.methods == DropEmpty(Split(list, ',')))
       && s.attributes == Dict(pairs)
       && s.descriptor == None && s.rpcService == None && s.client == None
  }

  /** An entry is recognised as this service if and only if nothing in it raises and its
      attributes advertise just that. */
  lemma RecogniseIff(d: Details, s: Service)
    ensures Recognise(d) == Some(s) <==> Advertises(d, s)
  {
    if d.attributes.Value? {
      var pairs := d.attributes.value;
      GetIff(pairs, "rpc.protocol", "jsonrpc-2.0");
      GetIff(pairs, "rpc.kind", "rpc");
      GetIff(pairs, "rpc.service", s.serviceName);
      GetIff(pairs, "rpc.controller", s.controllerName);
      GetIff(pairs, "rpc.schema", s.schemaEndpoint);
      forall list ensures Get(Dict(pairs), "rpc.methods") == list <==> SaysOrBlank(pairs, "rpc.methods", list) {
        GetIff(pairs, "rpc.methods", list);
      }
      hide Dict, SaysOrBlank, Get, Split, DropEmpty;
      assert SaysOrBlank(pairs, "rpc.methods", Get(Dict(pairs), "rpc.methods"));
    }
  }

  /** An entry that lacks one of the attributes that make it an RPC service is skipped. */
  lemma IncompleteEntriesAreSkipped(d: Details, key: string)
    requires d.attributes.Value? && !HasKey(d.attributes.value, key)
    requires key in {"rpc.protocol", "rpc.kind", "rpc.schema"}
    ensures Recognise(d) == None
  {
    DictHasKeyIff(d.attributes.value, key);
  }

  // ---------------------------------------------------------------- the collection

  /** A dictionary keyed by rpc endpoint: an assignment replaces in place or appends. */
  function Put(found: seq<Service>, s: Service): (r: seq<Service>)
  {
    if found == [] then [s]
    else if found[0].rpcEndpoint == s.rpcEndpoint then [s] + found[1..]
    else [found[0]] + Put(found[1..], s)
  }

  function Add(found: seq<Service>, d: Details): seq<Service> {
    var s := Recognise(d);
    if s.Some? then Put(found, s.value) else found
  }

  function Collect(found: seq<Service>, entries: seq<Details>): seq<Service>
    decreases entries
  {
    if entries == [] then found else Collect(Add(found, entries[0]), entries[1..])
  }

  ghost predicate DistinctEndpoints(services: seq<Service>) {
    forall i, j :: 0 <= i < j < |services| ==> services[i].rpcEndpoint != services[j].rpcEndpoint
  }

  predicate Offers(d: Details, endpoint: string) {
    Recognise(d).Some? && Recognise(d).value.rpcEndpoint == endpoint
  }

  /** The index of the first entry for an endpoint, or the length if there is none. */
  function FirstOffer(entries: seq<Details>, endpoint: string): (i: nat)
    ensures i <= |entries|
    ensures i < |entries| ==> Offers(entries[i], endpoint)
    ensures forall j :: 0 <= j < i ==> !Offers(entries[j], endpoint)
  {
    if entries == [] || Offers(entries[0], endpoint) then 0
    else 1 + FirstOffer(entries[1..], endpoint)
  }

  /** The i-th entry is the last one for its endpoint. */
  ghost predicate IsLastOffer(entries: seq<Details>, i: nat, s: Service) {
    && i < |entries|
    && Recognise(entries[i]) == Some(s)
    && forall j :: i < j < |entries| ==> !Offers(entries[j], s.rpcEndpoint)
  }

  ghost predicate HasLastOffer(entries: seq<Details>, s: Service) {
    exists i: nat :: IsLastOffer(entries, i, s)
  }

  ghost predicate HoldsLastOffers(entries: seq<Details>, found: seq<Service>) {
    forall k :: 0 <= k < |found| ==> HasLastOffer(entries, found[k])
  }

  ghost predicate Lists(found: seq<Service>, endpoint: string) {
    exists k :: 0 <= k < |found| && found[k].rpcEndpoint == endpoint
  }

  ghost predicate KeepsEveryOffer(entries: seq<Details>, found: seq<Service>) {
    forall i, endpoint :: 0 <= i < |entries| && Offers(entries[i], endpoint) ==> Lists(found, endpoint)
  }

  ghost predicate InFirstOfferOrder(entries: seq<Details>, found: seq<Service>) {
    forall a, b :: 0 <= a < b < |found| ==>
      FirstOffer(entries, found[a].rpcEndpoint) < FirstOffer(entries, found[b].rpcEndpoint)
  }

  /** An assignment under a new key appends. */
  lemma {:induction false} PutAppends(found: seq<Service>, s: Service)
    requires forall k :: 0 <= k < |found| ==> found[k].rpcEndpoint != s.rpcEndpoint
    ensures Put(found, s) == found + [s]
  {
    if found != [] {
      PutAppends(found[1..], s);
      assert found == [found[0]] + found[1..];
    }
  }

  /** An assignment under an existing key replaces its value and moves nothing. */
  lemma {:induction false} PutReplaces(found: seq<Service>, s: Service, k: nat)
    requires DistinctEndpoints(found) && k < |found| && found[k].rpcEndpoint == s.rpcEndpoint
    ensures Put(found, s) == found[k := s]
  {
    if k > 0 {
      PutReplaces(found[1..], s, k - 1);
      assert found[0].rpcEndpoint != s.rpcEndpoint;
      assert [found[0]] + found[1..][k - 1 := s] == found[k := s];
    }
  }

  lemma PutReplacesOrAppends(found: seq<Service>, s: Service)
    requires DistinctEndpoints(found)
    ensures var r := Put(found, s);
            && DistinctEndpoints(r)
            && |found| <= |r| <= |found| + 1
            && (forall k :: 0 <= k < |found| ==>
                  r[k] == if found[k].rpcEndpoint == s.rpcEndpoint then s else found[k])
            && (|r| == |found| + 1 <==> forall k :: 0 <= k < |found| ==> found[k].rpcEndpoint != s.rpcEndpoint)
            && (|r| == |found| + 1 ==> r[|found|] == s)
  {
    hide Put;
    if k :| 0 <= k < |found| && found[k].rpcEndpoint == s.rpcEndpoint {
      PutReplaces(found, s, k);
    } else {
      PutAppends(found, s);
    }
  }

  lemma {:induction false} CollectAddsLast(found: seq<Service>, entries: seq<Details>, last: Details)
    ensures Collect(found, entries + [last]) == Add(Collect(found, entries), last)
    decreases entries
  {
    if entries == [] {
      assert [] + [last] == [last] && [last][1..] == [];
    } else {
      assert (entries + [last])[1..] == entries[1..] + [last];
      CollectAddsLast(Add(found, entries[0]), entries[1..], last);
    }
  }

  /** Discovery keeps one service per endpoint: the last one listed for it, at the
      place where the endpoint was first listed; and it keeps every endpoint. */
  lemma {:induction false} CollectIsExact(entries: seq<Details>)
    ensures var found := Collect([], entries);
            && DistinctEndpoints(found)
            && HoldsLastOffers(entries, found)
            && KeepsEveryOffer(entries, found)
            && InFirstOfferOrder(entries, found)
  {
    if entries != [] {
      hide Recognise, HoldsLastOffers, KeepsEveryOffer, InFirstOfferOrder;
      var n := |entries| - 1;
      var front, d := entries[..n], entries[n];
      assert front + [d] == entries;
      CollectIsExact(front);
      CollectAddsLast([], front, d);
      var before := Collect([], front);
      var s := Recognise(d);
      if s.Some? {
        PutReplacesOrAppends(before, s.value);
        LastOffersAfter(front, d, s.value, before);
        EveryOfferAfter(front, d, s.value, before);
        FirstOffersAfter(front, d, s.value, before);
      } else {
        SkippedEntryChangesNothing(front, d, before);
      }
    } else {
      assert HoldsLastOffers([], []) && KeepsEveryOffer([], []) && InFirstOfferOrder([], []);
    }
  }

  lemma SkippedEntryChangesNothing(front: seq<Details>, d: Details, found: seq<Service>)
    requires Recognise(d) == None
    requires HoldsLastOffers(front, found) && KeepsEveryOffer(front, found) && InFirstOfferOrder(front, found)
    ensures HoldsLastOffers(front + [d], found)
    ensures KeepsEveryOffer(front + [d], found)
    ensures InFirstOfferOrder(front + [d], found)
  {
    hide Recognise;
    forall k | 0 <= k < |found| ensures HasLastOffer(front + [d], found[k]) {
      assert HasLastOffer(front, found[k]);
      var i: nat :| IsLastOffer(front, i, found[k]);
      assert IsLastOffer(front + [d], i, found[k]);
    }
    forall k | 0 <= k < |found|
      ensures FirstOffer(front + [d], found[k].rpcEndpoint) == FirstOffer(front, found[k].rpcEndpoint)
    {
      KeptOfferIsInFront(front, d, found, k);
    }
  }

  lemma LastOffersAfter(front: seq<Details>, d: Details, s: Service, before: seq<Service>)
    requires Recognise(d) == Some(s) && DistinctEndpoints(before) && HoldsLastOffers(front, before)
    ensures HoldsLastOffers(front + [d], Put(before, s))
  {
    hide Recognise, Put;
    PutReplacesOrAppends(before, s);
    var found := Put(before, s);
    forall k | 0 <= k < |found| ensures HasLastOffer(front + [d], found[k]) {
      if found[k] == s {
        assert IsLastOffer(front + [d], |front|, s);
      } else {
        assert HasLastOffer(front, before[k]);
        var i: nat :| IsLastOffer(front, i, before[k]);
        assert IsLastOffer(front + [d], i, found[k]);
      }
    }
  }

  lemma EveryOfferAfter(front: seq<Details>, d: Details, s: Service, before: seq<Service>)
    requires Recognise(d) == Some(s) && DistinctEndpoints(before) && KeepsEveryOffer(front, before)
    ensures KeepsEveryOffer(front + [d], Put(before, s))
  {
    hide Recognise, Put;
    PutReplacesOrAppends(before, s);
    var entries, found := front + [d], Put(before, s);
    forall i, endpoint | 0 <= i < |entries| && Offers(entries[i], endpoint) ensures Lists(found, endpoint) {
      if i < |front| {
        assert Offers(front[i], endpoint) && Lists(before, endpoint);
        var k :| 0 <= k < |before| && before[k].rpcEndpoint == endpoint;
        assert found[k].rpcEndpoint == endpoint;
      } else if |found| > |before| {
        assert found[|before|].rpcEndpoint == endpoint;
      }
    }
  }

  /** An endpoint that is already kept was first offered in front. */
  lemma KeptOfferIsInFront(front: seq<Details>, d: Details, before: seq<Service>, k: nat)
    requires k < |before| && HoldsLastOffers(front, before)
    ensures FirstOffer(front, before[k].rpcEndpoint) < |front|
    ensures FirstOffer(front + [d], before[k].rpcEndpoint) == FirstOffer(front, before[k].rpcEndpoint)
  {
    hide Recognise, FirstOffer;
    var endpoint := before[k].rpcEndpoint;
    assert HasLastOffer(front, before[k]);
    var i: nat :| IsLastOffer(front, i, before[k]);
    assert Offers(front[i], endpoint);
    var first := FirstOffer(front, endpoint);
    assert Offers((front + [d])[first], endpoint);
    assert forall j :: 0 <= j < first ==> (front + [d])[j] == front[j];
  }

  lemma FirstOffersAfter(front: seq<Details>, d: Details, s: Service, before: seq<Service>)
    requires Recognise(d) == Some(s) && DistinctEndpoints(before)
    requires HoldsLastOffers(front, before) && KeepsEveryOffer(front, before) && InFirstOfferOrder(front, before)
    ensures InFirstOfferOrder(front + [d], Put(before, s))
  {
    hide Recognise, Put, FirstOffer, HoldsLastOffers;
    PutReplacesOrAppends(before, s);
    var entries, found := front + [d], Put(before, s);
    forall a, b | 0 <= a < b < |found|
      ensures FirstOffer(entries, found[a].rpcEndpoint) < FirstOffer(entries, found[b].rpcEndpoint)
    {
      KeptOfferIsInFront(front, d, before, a);
      if b < |before| {
        KeptOfferIsInFront(front, d, before, b);
      } else {
        var first := FirstOffer(entries, s.rpcEndpoint);
        assert !Lists(before, s.rpcEndpoint);
        assert forall j :: 0 <= j < |front| ==> !Offers(front[j], s.rpcEndpoint);
        assert forall j :: 0 <= j < |front| ==> entries[j] == front[j];
      }
    }
  }

  /** Entries that are skipped, because they are foreign or raise, might as well not
      have been listed. */
  lemma {:induction false} SkippedEntriesAreInvisible(found: seq<Service>, entries: seq<Details>, keep: seq<bool>)
    requires |keep| == |entries|
    requires forall i :: 0 <= i < |entries| && !keep[i] ==> Recognise(entries[i]) == None
    ensures Collect(found, Select(entries, keep)) == Collect(found, entries)
    decreases entries
  {
    hide Recognise;
    if entries != [] {
      SkippedEntriesAreInvisible(Add(found, entries[0]), entries[1..], keep[1..]);
      if keep[0] {
        assert ([entries[0]] + Select(entries[1..], keep[1..]))[1..] == Select(entries[1..], keep[1..]);
      }
    }
  }

  // ---------------------------------------------------------------- the polling rounds

  /** The clock and the listing, read once per round. */
  datatype Rounds = Rounds(now: nat -> nat, list: nat -> Read<seq<Details>>, wait: nat -> Option<Exc>)

  /** Every wait advances the clock by at least `tick`. */
  ghost predicate Advances(now: nat -> nat, tick: nat) {
    tick > 0 && forall k: nat :: now(k) + tick <= now(k + 1)
  }

  datatype Discovered = Found(services: seq<Service>) | Raised(exc: Exc)

  const LIST_FAILED := Error("listing the services failed")

  method DiscoverAll(rounds: Rounds, deadline: nat, ghost tick: nat) returns (r: Discovered, k: nat)
    requires Advances(rounds.now, tick)
    ensures forall j :: 0 <= j < k ==> rounds.now(j) < deadline && rounds.list(j).Value? && rounds.wait(j) == None
                                       && Collect([], rounds.list(j).value) == []
    ensures match r
            case Raised(exc) =>
              && rounds.now(k) < deadline
              && (|| (rounds.list(k) == Fails && exc == LIST_FAILED)
                  || (rounds.list(k).Value? && Collect([], rounds.list(k).value) == [] && rounds.wait(k) == Some(exc)))
            case Found(services) =>
              if services == [] then rounds.now(k) >= deadline
              else rounds.now(k) < deadline && rounds.list(k).Value? && services == Collect([], rounds.list(k).value)
  {
    k := 0;
    var discovered := [];
    while rounds.now(k) < deadline
      invariant discovered == []
      invariant forall j :: 0 <= j < k ==> rounds.now(j) < deadline && rounds.list(j).Value? && rounds.wait(j) == None
                                           && Collect([], rounds.list(j).value) == []
      decreases deadline - rounds.now(k)
    {
      var listing := rounds.list(k);
      if listing.Fails? {
        return Raised(LIST_FAILED), k;
      }
      var services := listing.value;
      for i := 0 to |services|
        invariant Collect(discovered, services[i..]) == Collect([], services)
      {
        var s := Recognise(services[i]);
        if s.Some? {
          discovered := Put(discovered, s.value);
        }
      }
      if discovered != [] {
        return Found(discovered), k;
      }
      if rounds.wait(k).Some? {
        return Raised(rounds.wait(k).value), k;
      }
      k := k + 1;
    }
    r := Found(discovered);
  }

  // ---------------------------------------------------------------- keyed lookup

  method FindByEndpoint(services: seq<Service>, endpoint: string) returns (r: Option<Service>)
    ensures r == None <==> !Lists(services, endpoint)
    ensures r.Some? ==> r.value in services && r.value.rpcEndpoint == endpoint
    ensures DistinctEndpoints(services) ==>
              forall s :: s in services && s.rpcEndpoint == endpoint ==> r == Some(s)
  {
    for i := 0 to |services|
      invariant forall k :: 0 <= k < i ==> services[k].rpcEndpoint != endpoint
    {
      if services[i].rpcEndpoint == endpoint {
        return Some(services[i]);
      }
    }
    r := None;
  }
}
