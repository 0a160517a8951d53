/** The lists in ADDRESS_ASSIGN and ROUTE_ADVERTISEMENT capsules (section 4.7 of RFC 9484). */
module CapsuleLists {
  import opened Bytes
  import opened Varint

  datatype ListError = Short | BadIpVersion(version: nat)

  datatype AssignedAddress = AssignedAddress(requestId: nat, version: byte, address: seq<byte>, prefix: byte)

  datatype RouteAdvertisement = RouteAdvertisement(version: byte, start: seq<byte>, end: seq<byte>, protocol: byte)

  /** How long an address of an IP version is. */
  function AddressLen(version: byte): Option<nat> {
    if version == 4 then Some(4) else if version == 6 then Some(16) else None
  }

  /** What comes of a list whose entries so far are `out`, and of the rest of it. */
  function Then<T>(out: seq<T>, rest: Result<seq<T>, ListError>): Result<seq<T>, ListError> {
    match rest
    case Err(e) => Err(e)
    case Ok(list) => Ok(out + list)
  }

  lemma ThenOne<T>(out: seq<T>, one: T, rest: Result<seq<T>, ListError>)
    ensures Then(out, Then([one], rest)) == Then(out + [one], rest)
  {
    if rest.Ok? {
      assert out + ([one] + rest.value) == out + [one] + rest.value;
    }
  }

  lemma ThenAll<T>(rest: Result<seq<T>, ListError>)
    ensures Then([], rest) == rest
  {
    if rest.Ok? {
      assert [] + rest.value == rest.value;
    }
  }

  // ----- Assigned addresses -----

  /** The first address of a list and how many bytes it takes. */
  function FirstAssigned(s: seq<byte>): (r: Result<(AssignedAddress, nat), ListError>)
    ensures r.Ok? ==> 1 <= r.value.1 <= |s|
  {
    match GetVarint(s)
    case None => Err(Short)
    case Some((id, a)) =>
      if |s| <= a then Err(Short)
      else match AddressLen(s[a])
        case None => Err(BadIpVersion(s[a]))
        case Some(n) =>
          if |s| < a + n + 2 then Err(Short)
          else Ok((AssignedAddress(id, s[a], s[a + 1..a + 1 + n], s[a + 1 + n]), a + n + 2))
  }

  function Assigned(s: seq<byte>): Result<seq<AssignedAddress>, ListError>
    decreases |s|
  {
    if s == [] then Ok([])
    else match FirstAssigned(s)
      case Err(e) => Err(e)
      case Ok((first, n)) =>
        Then([first], Assigned(s[n..]))
  }

  method ParseAddressAssign(value: seq<byte>) returns (r: Result<seq<AssignedAddress>, ListError>)
    ensures r == Assigned(value)
  {
    hide FirstAssigned;
    var at := 0;
    var out: seq<AssignedAddress> := [];
    assert value[0..] == value;
    ThenAll(Assigned(value));
    while at < |value|
      invariant at <= |value|
      invariant Assigned(value) == Then(out, Assigned(value[at..]))
    {
      var first := FirstAssigned(value[at..]);
      if first.Err? {
        return Err(first.error);
      }
      var (address, n) := first.value;
      assert value[at..][n..] == value[at + n..];
      ThenOne(out, address, Assigned(value[at + n..]));
      out := out + [address];
      at := at + n;
    }
    assert out + [] == out;
    return Ok(out);
  }

  /** An address as it is sent, with its request ID in `n` bytes. */
  predicate Assignable(a: AssignedAddress, n: nat) {
    Width(n) && a.requestId < 64 * Rest(n) && AddressLen(a.version) == Some(|a.address|)
  }

  function EncodeAssigned(a: AssignedAddress, n: nat): seq<byte>
    requires Assignable(a, n)
  {
    VarintBytes(a.requestId, n) + ([a.version] + a.address + [a.prefix])
  }

  ghost predicate AllAssignable(list: seq<AssignedAddress>, widths: seq<nat>) {
    |list| == |widths| && forall i :: 0 <= i < |list| ==> Assignable(list[i], widths[i])
  }

  function EncodeList(list: seq<AssignedAddress>, widths: seq<nat>): seq<byte>
    requires |list| == |widths| && forall i :: 0 <= i < |list| ==> Assignable(list[i], widths[i])
  {
    if list == [] then [] else EncodeAssigned(list[0], widths[0]) + EncodeList(list[1..], widths[1..])
  }

  lemma AddressTail(a: AssignedAddress, rest: seq<byte>)
    ensures var tail := [a.version] + a.address + [a.prefix] + rest;
            && |tail| >= |a.address| + 2 && tail[0] == a.version
            && tail[1..1 + |a.address|] == a.address && tail[1 + |a.address|] == a.prefix
  {
  }

  lemma FirstAssignedReads(a: AssignedAddress, n: nat, rest: seq<byte>)
    requires Assignable(a, n)
    ensures FirstAssigned(EncodeAssigned(a, n) + rest) == Ok((a, |EncodeAssigned(a, n)|))
  {
    hide GetVarint, VarintBytes, Rest;
    var id, address := VarintBytes(a.requestId, n), [a.version] + a.address + [a.prefix];
    var tail, size := address + rest, |a.address|;
    Associates(id, address, rest);
    VarintReads(a.requestId, n, tail);
    AddressTail(a, rest);
    Behind(id, tail, 1, 1 + size);
    assert (id + tail)[n] == tail[0] && (id + tail)[n + 1 + size] == tail[1 + size];
  }

  lemma AddressIs(s: seq<byte>, at: nat, size: nat)
    requires at + size + 2 <= |s|
    ensures s[at..at + size + 2] == [s[at]] + s[at + 1..at + 1 + size] + [s[at + 1 + size]]
  {
  }

  lemma Rejoined(s: seq<byte>, i: nat, j: nat)
    requires i <= j <= |s|
    ensures s[..j] == s[..i] + s[i..j]
  {
  }

  lemma FirstAssignedWas(s: seq<byte>)
    requires s != [] && FirstAssigned(s).Ok?
    ensures GetVarint(s).Some?
    ensures var (a, used) := FirstAssigned(s).value;
            var n := GetVarint(s).value.1;
            Assignable(a, n) && s[..used] == EncodeAssigned(a, n)
  {
    hide GetVarint, VarintBytes, Rest;
    var (a, used) := FirstAssigned(s).value;
    var n := GetVarint(s).value.1;
    VarintWrites(s);
    Rejoined(s, n, used);
    AddressIs(s, n, |a.address|);
  }

  /** A list reads back as written, with its request IDs in any width. */
  lemma {:induction false} AssignedReads(list: seq<AssignedAddress>, widths: seq<nat>)
    requires AllAssignable(list, widths)
    ensures Assigned(EncodeList(list, widths)) == Ok(list)
  {
    if list != [] {
      hide FirstAssigned, EncodeAssigned;
      var rest := EncodeList(list[1..], widths[1..]);
      var s := EncodeAssigned(list[0], widths[0]) + rest;
      FirstAssignedReads(list[0], widths[0], rest);
      AssignedReads(list[1..], widths[1..]);
      assert s[|EncodeAssigned(list[0], widths[0])|..] == rest;
      assert [list[0]] + list[1..] == list;
      assert s != [] by { FirstAssignedSome(s); }
    }
  }

  lemma FirstAssignedSome(s: seq<byte>)
    requires FirstAssigned(s).Ok?
    ensures s != []
  {
  }

  /** And nothing but such a list is read. */
  lemma {:induction false} AssignedWas(s: seq<byte>) returns (widths: seq<nat>)
    requires Assigned(s).Ok?
    ensures AllAssignable(Assigned(s).value, widths) && s == EncodeList(Assigned(s).value, widths)
    decreases |s|
  {
    if s == [] {
      widths := [];
    } else {
      hide FirstAssigned, EncodeAssigned, Assignable;
      var (first, used) := FirstAssigned(s).value;
      FirstAssignedWas(s);
      var rest := AssignedWas(s[used..]);
      var list := Assigned(s[used..]).value;
      widths := [GetVarint(s).value.1] + rest;
      assert ([first] + list)[1..] == list && widths[1..] == rest;
      assert s == s[..used] + s[used..];
    }
  }

  // ----- Routes -----

  function FirstRoute(s: seq<byte>): (r: Result<(RouteAdvertisement, nat), ListError>)
    requires s != []
    ensures r.Ok? ==> 1 <= r.value.1 <= |s|
  {
    match AddressLen(s[0])
    case None => Err(BadIpVersion(s[0]))
    case Some(n) =>
      if |s| < 2 * n + 2 then Err(Short)
      else Ok((RouteAdvertisement(s[0], s[1..1 + n], s[1 + n..1 + 2 * n], s[1 + 2 * n]), 2 * n + 2))
  }

  function Routes(s: seq<byte>): Result<seq<RouteAdvertisement>, ListError>
    decreases |s|
  {
    if s == [] then Ok([])
    else match FirstRoute(s)
      case Err(e) => Err(e)
      case Ok((first, n)) =>
        Then([first], Routes(s[n..]))
  }

  method ParseRouteAdvertisement(value: seq<byte>) returns (r: Result<seq<RouteAdvertisement>, ListError>)
    ensures r == Routes(value)
  {
    hide FirstRoute;
    var at := 0;
    var out: seq<RouteAdvertisement> := [];
    assert value[0..] == value;
    ThenAll(Routes(value));
    while at < |value|
      invariant at <= |value|
      invariant Routes(value) == Then(out, Routes(value[at..]))
    {
      var first := FirstRoute(value[at..]);
      if first.Err? {
        return Err(first.error);
      }
      var (route, n) := first.value;
      assert value[at..][n..] == value[at + n..];
      ThenOne(out, route, Routes(value[at + n..]));
      out := out + [route];
      at := at + n;
    }
    assert out + [] == out;
    return Ok(out);
  }

  predicate Advertisable(r: RouteAdvertisement) {
    AddressLen(r.version) == Some(|r.start|) && |r.end| == |r.start|
  }

  function EncodeRoute(r: RouteAdvertisement): seq<byte> {
    [r.version] + r.start + r.end + [r.protocol]
  }

  function EncodeRoutes(list: seq<RouteAdvertisement>): seq<byte> {
    if list == [] then [] else EncodeRoute(list[0]) + EncodeRoutes(list[1..])
  }

  lemma FirstRouteReads(r: RouteAdvertisement, rest: seq<byte>)
    requires Advertisable(r)
    ensures FirstRoute(EncodeRoute(r) + rest) == Ok((r, |EncodeRoute(r)|))
  {
    var s := EncodeRoute(r) + rest;
    var n := |r.start|;
    assert s[0] == r.version && s[1 + 2 * n] == r.protocol && s[1..1 + n] == r.start && s[1 + n..1 + 2 * n] == r.end;
  }

  lemma FirstRouteWas(s: seq<byte>)
    requires s != [] && FirstRoute(s).Ok?
    ensures var (r, used) := FirstRoute(s).value; Advertisable(r) && s[..used] == EncodeRoute(r)
  {
  }

  ghost predicate AllAdvertisable(list: seq<RouteAdvertisement>) {
    forall i :: 0 <= i < |list| ==> Advertisable(list[i])
  }

  lemma RoutesFirst(r: RouteAdvertisement, more: seq<RouteAdvertisement>)
    ensures AllAdvertisable([r] + more) <==> Advertisable(r) && AllAdvertisable(more)
    ensures EncodeRoutes([r] + more) == EncodeRoute(r) + EncodeRoutes(more)
  {
    hide Advertisable, EncodeRoute;
    var list := [r] + more;
    assert list[1..] == more;
    if AllAdvertisable(list) {
      assert Advertisable(list[0]);
      forall i | 0 <= i < |more| ensures Advertisable(more[i]) {
        assert Advertisable(list[i + 1]);
      }
    }
  }

  lemma NoRoutes(s: seq<byte>)
    ensures EncodeRoutes([]) == [] && Routes([]) == Ok([]) && (Routes(s) == Ok([]) ==> s == [])
  {
  }

  /** A list that is read is the list that is written. */
  lemma {:induction false} RoutesWere(s: seq<byte>)
    requires Routes(s).Ok?
    ensures AllAdvertisable(Routes(s).value) && s == EncodeRoutes(Routes(s).value)
    decreases |s|
  {
    hide FirstRoute, EncodeRoute, Advertisable, EncodeRoutes, AllAdvertisable;
    if s == [] {
      NoRoutes(s);
      assert AllAdvertisable([]) by { EmptyAdvertisable(); }
    } else {
      var (first, used) := FirstRoute(s).value;
      FirstRouteWas(s);
      RoutesWere(s[used..]);
      RoutesFirst(first, Routes(s[used..]).value);
      assert s == s[..used] + s[used..];
    }
  }

  lemma EmptyAdvertisable()
    ensures AllAdvertisable([])
  {
  }

  /** A list that is written reads back. */
  lemma {:induction false} RoutesRead(list: seq<RouteAdvertisement>)
    requires AllAdvertisable(list)
    ensures Routes(EncodeRoutes(list)) == Ok(list)
  {
    hide FirstRoute, EncodeRoute, Advertisable;
    if list != [] {
      var first, rest := list[0], EncodeRoutes(list[1..]);
      assert list == [first] + list[1..];
      RoutesFirst(first, list[1..]);
      RoutesRead(list[1..]);
      FirstRouteReads(first, rest);
      EncodeRouteSome(first);
      assert (EncodeRoute(first) + rest)[|EncodeRoute(first)|..] == rest;
    }
  }

  /** What is read as a list of routes is that list as it is written, and nothing else. */
  lemma RoutesExactly(s: seq<byte>, list: seq<RouteAdvertisement>)
    ensures Routes(s) == Ok(list) <==> AllAdvertisable(list) && s == EncodeRoutes(list)
  {
    hide Routes, EncodeRoutes, AllAdvertisable;
    if Routes(s).Ok? {
      RoutesWere(s);
    }
    if AllAdvertisable(list) {
      RoutesRead(list);
    }
  }

  lemma EncodeRouteSome(r: RouteAdvertisement)
    ensures EncodeRoute(r) != []
  {
  }
}
