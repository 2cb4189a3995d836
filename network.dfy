/** The network panel (`get_network_panel`): one record per entry of
    `system_profiler SPNetworkDataType -json`, a stable sort by service
    order, the split into active interfaces (with an IPv4 address) and
    inactive ones, and the table rows, active first. */
module Network {
  import opened Wrappers
  import opened Text
  import opened Json
  import opened Panels

  /** One record of `interfaces_info`: the values read out of an entry. The
      type, name, MAC and order are whatever the entry holds (or the default);
      the two address fields are always text. */
  datatype Interface = Interface(
    interfaceType: Json,
    name: Json,
    ipv4: string,
    ipv6: string,
    mac: Json,
    order: Json)

  const NetworkTitle: string := "[#ffff00]\U{f06f3}[/#ffff00]  [bright_green]Network Interfaces[/bright_green]"
  const PanelBorder: string := "dim green"

  // ---------------------------------------------------------------------------
  // Reading one entry

  /** The strings of a list, if every element is one. */
  function AllStrings(items: seq<Json>): Option<seq<string>>
  {
    if items == [] then Some([])
    else match AllStrings(items[..|items| - 1])
      case None => None
      case Some(init) =>
        if items[|items| - 1].JString? then Some(init + [items[|items| - 1].s]) else None
  }

  /** The one-character strings of `s`, as iterating a string yields them. */
  function Chars(s: string): (r: seq<string>)
    ensures |r| == |s| && forall i :: 0 <= i < |s| ==> r[i] == [s[i]]
  {
    if s == [] then [] else Chars(s[..|s| - 1]) + [[s[|s| - 1]]]
  }

  /** `", ".join(addresses)`: a list must hold only strings, a string is
      joined character by character; anything else raises `TypeError`. A
      non-empty mapping, which Python would join by its keys, is treated as an
      error too, since a map here has no key order. */
  function JoinAddresses(addresses: Json): Outcome<string>
  {
    match addresses
    case JList(items) =>
      if AllStrings(items).Some? then Ok(Join(", ", AllStrings(items).value)) else Raised(Error)
    case JString(s) => Ok(Join(", ", Chars(s)))
    case _ => Raised(Error)
  }

  /** `iface.get(family, {}).get("Addresses", [])`, joined with `", "`, or ""
      when there are none. */
  function AddressField(iface: Json, family: string): Outcome<string>
  {
    var info :- Get(iface, family, JObject(map[]));
    var addresses :- Get(info, "Addresses", JList([]));
    if Truthy(addresses) then JoinAddresses(addresses) else Ok("")
  }

  /** The `or` chain: the Ethernet MAC if truthy, else the Wi-Fi MAC if
      truthy, else "N/A"; the Wi-Fi entry is read only when needed. */
  function MacAddress(iface: Json): Outcome<Json>
  {
    var ethernet :- Get(iface, "Ethernet", JObject(map[]));
    var ethernetMac :- Get(ethernet, "MAC Address", JNull);
    if Truthy(ethernetMac) then Ok(ethernetMac)
    else
      var wifi :- Get(iface, "Wi-Fi", JObject(map[]));
      var wifiMac :- Get(wifi, "MAC Address", JNull);
      if Truthy(wifiMac) then Ok(wifiMac) else Ok(JString("N/A"))
  }

  /** The body of the extraction loop for one entry. */
  function ExtractInterface(iface: Json): Outcome<Interface>
  {
    var interfaceType :- Get(iface, "_name", JString("Unknown"));
    var name :- Get(iface, "interface", JString("N/A"));
    var ipv4 :- AddressField(iface, "IPv4");
    var ipv6 :- AddressField(iface, "IPv6");
    var mac :- MacAddress(iface);
    var order :- Get(iface, "spnetwork_service_order", JString("N/A"));
    Ok(Interface(interfaceType, name, ipv4, ipv6, mac, order))
  }

  /** An entry with none of the fields gets every default. */
  lemma EmptyEntryDefaults()
    ensures ExtractInterface(JObject(map[]))
      == Ok(Interface(JString("Unknown"), JString("N/A"), "", "", JString("N/A"), JString("N/A")))
  {
  }

  /** In any entry whose address family holds a list of address strings,
      the field is those addresses joined with ", " ("" when there are none). */
  lemma AddressesJoined(m: map<string, Json>, family: string, n: map<string, Json>, addresses: seq<string>, items: seq<Json>)
    requires family in m && m[family] == JObject(n) && "Addresses" in n && n["Addresses"] == JList(items)
    requires |items| == |addresses| && forall i :: 0 <= i < |items| ==> items[i] == JString(addresses[i])
    ensures AddressField(JObject(m), family) == Ok(Join(", ", addresses))
  {
    assert Get(JObject(m), family, JObject(map[])) == Ok(JObject(n));
    assert Get(JObject(n), "Addresses", JList([])) == Ok(JList(items));
    AllStringsOf(addresses, items);
    assert Truthy(JList(items)) <==> addresses != [];
  }

  /** An entry without the address family, or whose family has no
      `Addresses`, shows "" for it. */
  lemma AddressesAbsent(m: map<string, Json>, family: string)
    requires family !in m || (m[family].JObject? && "Addresses" !in m[family].fields)
    ensures AddressField(JObject(m), family) == Ok("")
  {
  }

  lemma {:induction false} AllStringsOf(addresses: seq<string>, items: seq<Json>)
    requires |items| == |addresses| && forall i :: 0 <= i < |items| ==> items[i] == JString(addresses[i])
    ensures AllStrings(items) == Some(addresses)
  {
    if items != [] {
      var n := |items| - 1;
      AllStringsOf(addresses[..n], items[..n]);
      assert addresses[..n] + [addresses[n]] == addresses;
    }
  }

  /** Any entry that is a dict extracts exactly when its address fields and
      its MAC do; the record then holds each field the entry has, and the
      default for each field it lacks. */
  lemma ExtractFields(m: map<string, Json>)
    ensures var r := ExtractInterface(JObject(m));
      && (r.Ok? <==> AddressField(JObject(m), "IPv4").Ok? && AddressField(JObject(m), "IPv6").Ok? && MacAddress(JObject(m)).Ok?)
      && (r.Ok? ==>
            && r.value.interfaceType == (if "_name" in m then m["_name"] else JString("Unknown"))
            && r.value.name == (if "interface" in m then m["interface"] else JString("N/A"))
            && r.value.ipv4 == AddressField(JObject(m), "IPv4").value
            && r.value.ipv6 == AddressField(JObject(m), "IPv6").value
            && r.value.mac == MacAddress(JObject(m)).value
            && r.value.order == (if "spnetwork_service_order" in m then m["spnetwork_service_order"] else JString("N/A")))
  {
  }

  /** An entry with neither an Ethernet nor a Wi-Fi section shows "N/A" as its MAC. */
  lemma MacAbsent(m: map<string, Json>)
    requires "Ethernet" !in m && "Wi-Fi" !in m
    ensures MacAddress(JObject(m)) == Ok(JString("N/A"))
  {
  }

  /** The Ethernet MAC wins when it is set; the Wi-Fi MAC is used only when
      it is not; "N/A" only when neither is. */
  lemma MacPreference(iface: Json)
    requires iface.JObject?
    requires MacAddress(iface).Ok?
    ensures var ethernet := Subscript(iface, "Ethernet");
      var wifi := Subscript(iface, "Wi-Fi");
      var ethernetMac := if ethernet.Some? then Subscript(ethernet.value, "MAC Address") else None;
      var wifiMac := if wifi.Some? then Subscript(wifi.value, "MAC Address") else None;
      && var ethernetSet, wifiSet := ethernetMac.Some? && Truthy(ethernetMac.value), wifiMac.Some? && Truthy(wifiMac.value);
      && (ethernetSet ==> MacAddress(iface) == Ok(ethernetMac.value))
      && (!ethernetSet && wifiSet ==> MacAddress(iface) == Ok(wifiMac.value))
      && (!ethernetSet && !wifiSet ==> MacAddress(iface) == Ok(JString("N/A")))
  {
  }

  /** `interfaces_info` after the loop over the first entries: one record per
      entry, in order, unless some entry raised. */
  function ExtractAll(entries: seq<Json>): (r: Outcome<seq<Interface>>)
    ensures r.Ok? <==> forall i :: 0 <= i < |entries| ==> ExtractInterface(entries[i]).Ok?
    ensures r.Ok? ==> |r.value| == |entries|
    ensures r.Ok? ==> forall i :: 0 <= i < |entries| ==> r.value[i] == ExtractInterface(entries[i]).value
    ensures r.Raised? ==> r.kind == Error
  {
    if entries == [] then Ok([])
    else
      var n := |entries| - 1;
      match ExtractAll(entries[..n])
      case Raised(k) => Raised(k)
      case Ok(init) =>
        match ExtractInterface(entries[n])
        case Raised(k) => Raised(k)
        case Ok(info) => Ok(init + [info])
  }

  lemma ExtractInterfaceErrors(iface: Json)
    ensures ExtractInterface(iface).Raised? ==> ExtractInterface(iface).kind == Error
  {
  }

  /** The extraction loop of `get_network_panel`. */
  method ExtractInterfaces(entries: seq<Json>) returns (r: Outcome<seq<Interface>>)
    ensures r == ExtractAll(entries)
  {
    var interfacesInfo: seq<Interface> := [];
    for i := 0 to |entries|
      invariant ExtractAll(entries[..i]) == Ok(interfacesInfo)
    {
      assert entries[..i + 1][..i] == entries[..i];
      var info := ExtractInterface(entries[i]);
      if info.Raised? {
        ExtractInterfaceErrors(entries[i]);
        assert !ExtractAll(entries).Ok?;
        return Raised(info.kind);
      }
      interfacesInfo := interfacesInfo + [info.value];
    }
    assert entries[..|entries|] == entries;
    r := Ok(interfacesInfo);
  }

  // ---------------------------------------------------------------------------
  // Ordering by service order

  /** Python's `<=` on strings: lexicographic by code point. */
  predicate StrLe(a: string, b: string)
  {
    a == [] || (b != [] && (a[0] < b[0] || (a[0] == b[0] && StrLe(a[1..], b[1..]))))
  }

  lemma StrLeTotal(a: string, b: string)
    ensures StrLe(a, b) || StrLe(b, a)
  {
  }

  lemma StrLeTransitive(a: string, b: string, c: string)
    requires StrLe(a, b) && StrLe(b, c)
    ensures StrLe(a, c)
  {
  }

  lemma StrLeReflexive(a: string)
    ensures StrLe(a, a)
  {
  }

  lemma StrLeAntisymmetric(a: string, b: string)
    requires StrLe(a, b) && StrLe(b, a)
    ensures a == b
  {
    if a != [] && b != [] {
      StrLeAntisymmetric(a[1..], b[1..]);
      assert a == [a[0]] + a[1..] && b == [b[0]] + b[1..];
    }
  }

  /** How a service order compares: numbers (a `bool` is the number 0 or 1),
      strings, or a value Python cannot order against these. */
  function Rank(order: Json): int
  {
    match order
    case JInt(_) => 0
    case JBool(_) => 0
    case JString(_) => 1
    case _ => 2
  }

  function Number(order: Json): int
    requires Rank(order) == 0
  {
    match order
    case JInt(i) => i
    case JBool(b) => if b then 1 else 0
  }

  /** A total preorder on orders that is Python's `<=` among numbers and among
      strings; values of different ranks are placed by rank only so that the
      sort below is defined everywhere (Python raises on them instead). */
  predicate OrderLe(a: Json, b: Json)
  {
    if Rank(a) != Rank(b) then Rank(a) < Rank(b)
    else if Rank(a) == 0 then Number(a) <= Number(b)
    else if Rank(a) == 1 then StrLe(a.s, b.s)
    else true
  }

  lemma OrderLeTotal(a: Json, b: Json)
    ensures OrderLe(a, b) || OrderLe(b, a)
  {
    if Rank(a) == Rank(b) == 1 {
      StrLeTotal(a.s, b.s);
    }
  }

  lemma OrderLeTransitive(a: Json, b: Json, c: Json)
    requires OrderLe(a, b) && OrderLe(b, c)
    ensures OrderLe(a, c)
  {
    if Rank(a) == Rank(b) == Rank(c) == 1 {
      StrLeTransitive(a.s, b.s, c.s);
    }
  }

  /** Among orders Python can compare, two records compare equal exactly when
      their orders are the same number or the same string. */
  lemma OrderEquivalence(a: Json, b: Json)
    requires Rank(a) == Rank(b) < 2
    ensures OrderLe(a, b) && OrderLe(b, a) <==> (if Rank(a) == 0 then Number(a) == Number(b) else a == b)
  {
    if Rank(a) == 1 {
      StrLeReflexive(a.s);
      if OrderLe(a, b) && OrderLe(b, a) {
        StrLeAntisymmetric(a.s, b.s);
      }
    }
  }

  /** `sort(key=lambda x: x["order"])` succeeds: with two or more records,
      Python compares every record with some other one, so all orders must be
      numbers or all strings. */
  predicate Sortable(xs: seq<Interface>)
  {
    |xs| <= 1
    || (forall i :: 0 <= i < |xs| ==> Rank(xs[i].order) == 0)
    || (forall i :: 0 <= i < |xs| ==> Rank(xs[i].order) == 1)
  }

  predicate Sorted(xs: seq<Interface>)
  {
    forall i, j :: 0 <= i < j < |xs| ==> OrderLe(xs[i].order, xs[j].order)
  }

  /** Inserts `x` into sorted `s` after every record that does not order after it. */
  function Insert(x: Interface, s: seq<Interface>): seq<Interface>
  {
    if s == [] then [x]
    else if OrderLe(s[|s| - 1].order, x.order) then s + [x]
    else Insert(x, s[..|s| - 1]) + [s[|s| - 1]]
  }

  /** A stable sort by order (insertion from the left). */
  function Sort(xs: seq<Interface>): seq<Interface>
  {
    if xs == [] then [] else Insert(xs[|xs| - 1], Sort(xs[..|xs| - 1]))
  }

  /** The record's order compares equal to `key`: neither orders before the other. */
  predicate SameKey(x: Interface, key: Json)
  {
    OrderLe(x.order, key) && OrderLe(key, x.order)
  }

  /** The records whose order compares equal to `key`, in sequence order. */
  function WithKey(xs: seq<Interface>, key: Json): seq<Interface>
  {
    if xs == [] then []
    else WithKey(xs[..|xs| - 1], key) + (if SameKey(xs[|xs| - 1], key) then [xs[|xs| - 1]] else [])
  }

  lemma {:induction false} WithKeyConcat(a: seq<Interface>, b: seq<Interface>, key: Json)
    ensures WithKey(a + b, key) == WithKey(a, key) + WithKey(b, key)
  {
    if b != [] {
      WithKeyConcat(a, b[..|b| - 1], key);
      assert (a + b)[..|a + b| - 1] == a + b[..|b| - 1];
    } else {
      assert a + b == a;
    }
  }

  lemma SortedPrefix(s: seq<Interface>, n: nat)
    requires Sorted(s) && n <= |s|
    ensures Sorted(s[..n])
  {
    forall i, j | 0 <= i < j < n ensures OrderLe(s[..n][i].order, s[..n][j].order) {
      assert s[..n][i] == s[i] && s[..n][j] == s[j];
    }
  }

  /** Inserting adds exactly the one record. */
  lemma {:induction false} InsertCount(x: Interface, s: seq<Interface>)
    ensures multiset(Insert(x, s)) == multiset(s) + multiset{x}
    ensures |Insert(x, s)| == |s| + 1
  {
    if s != [] && !OrderLe(s[|s| - 1].order, x.order) {
      var init, last := s[..|s| - 1], s[|s| - 1];
      assert multiset(s) == multiset(init) + multiset{last} by {
        SplitLast(s);
      }
      InsertCount(x, init);
    }
  }

  /** Every record of `Insert(x, s)` orders no later than a bound of `x` and of `s`. */
  lemma InsertBounded(x: Interface, s: seq<Interface>, bound: Json)
    requires OrderLe(x.order, bound)
    requires forall y :: y in s ==> OrderLe(y.order, bound)
    ensures forall y :: y in Insert(x, s) ==> OrderLe(y.order, bound)
  {
    InsertCount(x, s);
    forall y | y in Insert(x, s) ensures OrderLe(y.order, bound) {
      assert y in multiset(Insert(x, s));
      assert y == x || y in multiset(s);
    }
  }

  lemma {:induction false} InsertFacts(x: Interface, s: seq<Interface>)
    requires Sorted(s)
    ensures Sorted(Insert(x, s))
    ensures multiset(Insert(x, s)) == multiset(s) + multiset{x}
    ensures |Insert(x, s)| == |s| + 1
  {
    InsertCount(x, s);
    if s != [] {
      var init, last := s[..|s| - 1], s[|s| - 1];
      if OrderLe(last.order, x.order) {
        forall y | y in s ensures OrderLe(y.order, x.order) {
          var i :| 0 <= i < |s| && s[i] == y;
          if i < |s| - 1 {
            OrderLeTransitive(s[i].order, last.order, x.order);
          }
        }
        SortedSnoc(s, x);
      } else {
        OrderLeTotal(last.order, x.order);
        SortedPrefix(s, |s| - 1);
        InsertFacts(x, init);
        forall y | y in init ensures OrderLe(y.order, last.order) {
          var k :| 0 <= k < |init| && init[k] == y;
          assert s[k] == y;
        }
        InsertBounded(x, init, last.order);
        SortedSnoc(Insert(x, init), last);
      }
    }
  }

  lemma {:induction false} SortFacts(xs: seq<Interface>)
    ensures Sorted(Sort(xs))
    ensures multiset(Sort(xs)) == multiset(xs)
    ensures |Sort(xs)| == |xs|
  {
    if xs != [] {
      var init := xs[..|xs| - 1];
      SortFacts(init);
      InsertFacts(xs[|xs| - 1], Sort(init));
      SplitLast(xs);
    }
  }

  lemma WithKeySingle(y: Interface, key: Json)
    ensures WithKey([y], key) == if SameKey(y, key) then [y] else []
  {
    assert [y][..0] == [];
  }

  /** A record that orders strictly before `last` cannot share a key with it. */
  lemma KeysApart(x: Interface, last: Interface, key: Json)
    requires !OrderLe(last.order, x.order)
    ensures WithKey([x], key) + WithKey([last], key) == WithKey([last], key) + WithKey([x], key)
  {
    WithKeySingle(x, key);
    WithKeySingle(last, key);
    if SameKey(x, key) && SameKey(last, key) {
      OrderLeTransitive(last.order, key, x.order);
    }
  }

  /** Inserting places `x` after every record with the same key. */
  lemma {:induction false} InsertKeepsKeyOrder(x: Interface, s: seq<Interface>, key: Json)
    ensures WithKey(Insert(x, s), key) == WithKey(s, key) + WithKey([x], key)
  {
    if s == [] {
      assert Insert(x, s) == [] + [x];
      WithKeyConcat([], [x], key);
    } else if OrderLe(s[|s| - 1].order, x.order) {
      WithKeyConcat(s, [x], key);
    } else {
      InsertKeepsKeyOrder(x, s[..|s| - 1], key);
      InsertPastLast(x, s, key);
    }
  }

  /** The step of `InsertKeepsKeyOrder` where `x` moves before the last record. */
  lemma {:induction false} InsertPastLast(x: Interface, s: seq<Interface>, key: Json)
    requires s != [] && !OrderLe(s[|s| - 1].order, x.order)
    requires WithKey(Insert(x, s[..|s| - 1]), key) == WithKey(s[..|s| - 1], key) + WithKey([x], key)
    ensures WithKey(Insert(x, s), key) == WithKey(s, key) + WithKey([x], key)
  {
    var init, last := s[..|s| - 1], s[|s| - 1];
    var a, b, c := WithKey(init, key), WithKey([x], key), WithKey([last], key);
    WithKeyConcat(Insert(x, init), [last], key);
    SplitLast(s);
    WithKeyConcat(init, [last], key);
    KeysApart(x, last, key);
    assert (a + b) + c == a + (b + c) && a + (c + b) == (a + c) + b;
  }

  /** Stability: the records whose orders compare equal keep their relative
      order through the sort. */
  lemma {:induction false} SortIsStable(xs: seq<Interface>, key: Json)
    ensures WithKey(Sort(xs), key) == WithKey(xs, key)
  {
    if xs != [] {
      var init := xs[..|xs| - 1];
      SortIsStable(init, key);
      InsertKeepsKeyOrder(xs[|xs| - 1], Sort(init), key);
      WithKeyConcat(init, [xs[|xs| - 1]], key);
      SplitLast(xs);
    }
  }

  /** `interfaces_info.sort(key=lambda x: x["order"])`. */
  function SortByOrder(xs: seq<Interface>): (r: Outcome<seq<Interface>>)
    ensures r.Ok? <==> Sortable(xs)
    ensures r.Raised? ==> r.kind == Error
    ensures r.Ok? ==> Sorted(r.value) && multiset(r.value) == multiset(xs) && |r.value| == |xs|
    ensures r.Ok? ==> forall key :: WithKey(r.value, key) == WithKey(xs, key)
  {
    SortFacts(xs);
    forall key ensures WithKey(Sort(xs), key) == WithKey(xs, key) {
      SortIsStable(xs, key);
    }
    if Sortable(xs) then Ok(Sort(xs)) else Raised(Error)
  }

  // ---------------------------------------------------------------------------
  // Active and inactive interfaces

  predicate IsActive(info: Interface)
  {
    info.ipv4 != ""
  }

  function Active(xs: seq<Interface>): seq<Interface>
  {
    if xs == [] then []
    else Active(xs[..|xs| - 1]) + (if IsActive(xs[|xs| - 1]) then [xs[|xs| - 1]] else [])
  }

  function Inactive(xs: seq<Interface>): seq<Interface>
  {
    if xs == [] then []
    else Inactive(xs[..|xs| - 1]) + (if IsActive(xs[|xs| - 1]) then [] else [xs[|xs| - 1]])
  }

  lemma {:induction false} ActiveMembers(xs: seq<Interface>)
    ensures forall x :: x in Active(xs) <==> x in xs && IsActive(x)
    ensures forall x :: x in Inactive(xs) <==> x in xs && !IsActive(x)
  {
    if xs != [] {
      ActiveMembers(xs[..|xs| - 1]);
      SplitLast(xs);
    }
  }

  lemma {:induction false} PartitionCount(xs: seq<Interface>)
    ensures multiset(Active(xs)) + multiset(Inactive(xs)) == multiset(xs)
  {
    if xs != [] {
      var init, last := xs[..|xs| - 1], xs[|xs| - 1];
      assert multiset(xs) == multiset(init) + multiset{last} by {
        SplitLast(xs);
      }
      PartitionCount(init);
    }
  }

  lemma PartitionLength(xs: seq<Interface>)
    ensures |Active(xs)| + |Inactive(xs)| == |xs|
  {
    PartitionCount(xs);
    assert |multiset(Active(xs)) + multiset(Inactive(xs))| == |multiset(xs)|;
  }

  lemma {:induction false} PartitionSorted(xs: seq<Interface>)
    requires Sorted(xs)
    ensures Sorted(Active(xs)) && Sorted(Inactive(xs))
  {
    if xs != [] {
      var init, last := xs[..|xs| - 1], xs[|xs| - 1];
      SortedPrefix(xs, |xs| - 1);
      PartitionSorted(init);
      ActiveMembers(init);
      forall y | y in init ensures OrderLe(y.order, last.order) {
        var k :| 0 <= k < |init| && init[k] == y;
        assert xs[k] == y;
      }
      SortedSnoc(Active(init), last);
      SortedSnoc(Inactive(init), last);
    }
  }

  lemma {:induction false} PartitionConcat(a: seq<Interface>, b: seq<Interface>)
    ensures Active(a + b) == Active(a) + Active(b)
    ensures Inactive(a + b) == Inactive(a) + Inactive(b)
    decreases |b|
  {
    if b == [] {
      assert a + b == a;
    } else {
      var init := b[..|b| - 1];
      assert (a + b)[..|a + b| - 1] == a + init;
      assert (a + b)[|a + b| - 1] == b[|b| - 1];
      PartitionConcat(a, init);
    }
  }

  lemma PartitionSingle(y: Interface)
    ensures Active([y]) == if IsActive(y) then [y] else []
    ensures Inactive([y]) == if IsActive(y) then [] else [y]
  {
    assert [y][..0] == [];
  }

  /** The split is stable: among the records whose order compares equal to
      `key`, the active ones appear in the active list in the order they had,
      and the inactive ones likewise. */
  lemma {:induction false} PartitionKeepsKeyOrder(xs: seq<Interface>, key: Json)
    ensures WithKey(Active(xs), key) == Active(WithKey(xs, key))
    ensures WithKey(Inactive(xs), key) == Inactive(WithKey(xs, key))
  {
    if xs != [] {
      var init, last := xs[..|xs| - 1], xs[|xs| - 1];
      PartitionKeepsKeyOrder(init, key);
      var own := if SameKey(last, key) then [last] else [];
      var act := if IsActive(last) then [last] else [];
      var ina := if IsActive(last) then [] else [last];
      WithKeyConcat(Active(init), act, key);
      WithKeyConcat(Inactive(init), ina, key);
      PartitionConcat(WithKey(init, key), own);
      PartitionSingle(last);
      WithKeySingle(last, key);
      assert WithKey(xs, key) == WithKey(init, key) + own;
      if !SameKey(last, key) {
        assert Active(own) == [] && Inactive(own) == [];
      }
      assert WithKey([], key) == [];
    }
  }

  /** Active holds exactly the records with an IPv4 address and inactive the
      rest; together they are the input, rearranged; each keeps the input's
      relative order, so a sorted input gives sorted parts. */
  lemma PartitionFacts(xs: seq<Interface>)
    ensures forall x :: x in Active(xs) <==> x in xs && IsActive(x)
    ensures forall x :: x in Inactive(xs) <==> x in xs && !IsActive(x)
    ensures multiset(Active(xs)) + multiset(Inactive(xs)) == multiset(xs)
    ensures |Active(xs)| + |Inactive(xs)| == |xs|
    ensures Sorted(xs) ==> Sorted(Active(xs)) && Sorted(Inactive(xs))
    ensures forall key :: WithKey(Active(xs), key) == Active(WithKey(xs, key))
    ensures forall key :: WithKey(Inactive(xs), key) == Inactive(WithKey(xs, key))
  {
    ActiveMembers(xs);
    PartitionCount(xs);
    PartitionLength(xs);
    if Sorted(xs) {
      PartitionSorted(xs);
    }
    forall key ensures WithKey(Active(xs), key) == Active(WithKey(xs, key))
      && WithKey(Inactive(xs), key) == Inactive(WithKey(xs, key))
    {
      PartitionKeepsKeyOrder(xs, key);
    }
  }

  lemma SortedSnoc(s: seq<Interface>, x: Interface)
    requires Sorted(s)
    requires forall y :: y in s ==> OrderLe(y.order, x.order)
    ensures Sorted(s + [x])
  {
    forall i, j | 0 <= i < j < |s + [x]| ensures OrderLe((s + [x])[i].order, (s + [x])[j].order) {
      if j == |s| {
        assert (s + [x])[i] in s;
      }
    }
  }

  /** The loop that splits the sorted records. */
  method Partition(sorted: seq<Interface>) returns (active: seq<Interface>, inactive: seq<Interface>)
    ensures active == Active(sorted) && inactive == Inactive(sorted)
  {
    active, inactive := [], [];
    for i := 0 to |sorted|
      invariant active == Active(sorted[..i]) && inactive == Inactive(sorted[..i])
    {
      assert sorted[..i + 1][..i] == sorted[..i];
      var info := sorted[i];
      if info.ipv4 != "" {
        active := active + [info];
      } else {
        inactive := inactive + [info];
      }
    }
    assert sorted[..|sorted|] == sorted;
  }

  // ---------------------------------------------------------------------------
  // Table rows

  function Cells(info: Interface): seq<Json>
  {
    [info.interfaceType, info.name, JString(info.ipv4)]
  }

  /** A cell Rich's `Table.add_row` accepts: a string, or `None`, which it
      shows as an empty cell. Any other value (a number, a boolean, a list,
      a dictionary) makes it raise `NotRenderableError`. */
  predicate Renderable(cell: Json)
  {
    cell.JString? || cell.JNull?
  }

  /** The record's row can be added: its type and its name are renderable
      (its address is always a string). */
  predicate Shown(info: Interface)
  {
    Renderable(info.interfaceType) && Renderable(info.name)
  }

  predicate AllShown(xs: seq<Interface>)
  {
    forall i :: 0 <= i < |xs| ==> Shown(xs[i])
  }

  /** The rows of the table: every active record in normal style, a section
      rule after the last one, then every inactive record dimmed. */
  predicate RowsFor(rows: seq<Row>, active: seq<Interface>, inactive: seq<Interface>)
  {
    && |rows| == |active| + |inactive|
    && (forall i :: 0 <= i < |active| ==> rows[i] == Row(Cells(active[i]), "none", i == |active| - 1))
    && (forall i :: |active| <= i < |rows| ==> rows[i] == Row(Cells(inactive[i - |active|]), "dim", false))
  }

  /** The two loops that add the rows, counting active rows with `row_num`.
      The first record whose row cannot be rendered raises out of the loops. */
  method AddRows(active: seq<Interface>, inactive: seq<Interface>) returns (r: Outcome<seq<Row>>)
    ensures r.Ok? <==> AllShown(active) && AllShown(inactive)
    ensures r.Raised? ==> r.kind == Error
    ensures r.Ok? ==> RowsFor(r.value, active, inactive)
  {
    var rows := [];
    var rowNum := 1;
    var numRows := |active|;
    for i := 0 to |active|
      invariant rowNum == i + 1 && |rows| == i
      invariant AllShown(active[..i])
      invariant forall k :: 0 <= k < i ==> rows[k] == Row(Cells(active[k]), "none", k == |active| - 1)
    {
      var info := active[i];
      if !Renderable(info.interfaceType) || !Renderable(info.name) {
        return Raised(Error);
      }
      rows := rows + [Row([info.interfaceType, info.name, JString(info.ipv4)], "none", rowNum == numRows)];
      rowNum := rowNum + 1;
    }
    assert active[..|active|] == active;
    for i := 0 to |inactive|
      invariant |rows| == |active| + i
      invariant AllShown(inactive[..i])
      invariant forall k :: 0 <= k < |active| ==> rows[k] == Row(Cells(active[k]), "none", k == |active| - 1)
      invariant forall k :: |active| <= k < |rows| ==> rows[k] == Row(Cells(inactive[k - |active|]), "dim", false)
    {
      var info := inactive[i];
      if !Renderable(info.interfaceType) || !Renderable(info.name) {
        return Raised(Error);
      }
      rows := rows + [Row([info.interfaceType, info.name, JString(info.ipv4)], "dim", false)];
    }
    assert inactive[..|inactive|] == inactive;
    r := Ok(rows);
  }

  /** Exactly one row ends a section, the last active one, and none does when
      no interface is active; the normal rows are exactly the active ones. */
  lemma RowsSections(rows: seq<Row>, active: seq<Interface>, inactive: seq<Interface>)
    requires RowsFor(rows, active, inactive)
    ensures forall i :: 0 <= i < |rows| ==> (rows[i].endSection <==> i == |active| - 1)
    ensures forall i :: 0 <= i < |rows| ==> (rows[i].style == "none" <==> i < |active|)
    ensures forall i :: 0 <= i < |rows| ==> rows[i].style in {"none", "dim"}
  {
    forall i | 0 <= i < |rows|
      ensures (rows[i].endSection <==> i == |active| - 1) && (rows[i].style == "none" <==> i < |active|)
      ensures rows[i].style in {"none", "dim"}
    {
    }
  }

  // ---------------------------------------------------------------------------
  // The panel

  function TablePanel(rows: seq<Row>): Panel
  {
    Panel(Table(rows), PanelBorder, Some(NetworkTitle))
  }

  /** `get_network_panel()` given what `system_profiler` did. */
  function NetworkPanelOf(run: ProfilerRun): Outcome<Panel>
  {
    match run
    case Unavailable => Raised(SystemExit)
    case Printed(None) => Raised(SystemExit)
    case Printed(Some(data)) =>
      var listed :- Get(data, "SPNetworkDataType", JList([]));
      var entries :- DictEntries(listed);
      var infos :- ExtractAll(entries);
      var sorted :- SortByOrder(infos);
      if AllShown(Active(sorted)) && AllShown(Inactive(sorted)) then
        Ok(TablePanel(RowsOf(Active(sorted), Inactive(sorted))))
      else
        Raised(Error)
  }

  /** The rows `AddRows` builds, as a value. */
  function RowsOf(active: seq<Interface>, inactive: seq<Interface>): (rows: seq<Row>)
    ensures RowsFor(rows, active, inactive)
  {
    seq(|active|, i requires 0 <= i < |active| => Row(Cells(active[i]), "none", i == |active| - 1))
      + seq(|inactive|, i requires 0 <= i < |inactive| => Row(Cells(inactive[i]), "dim", false))
  }

  lemma RowsForUnique(a: seq<Row>, b: seq<Row>, active: seq<Interface>, inactive: seq<Interface>)
    requires RowsFor(a, active, inactive) && RowsFor(b, active, inactive)
    ensures a == b
  {
    forall i | 0 <= i < |a| ensures a[i] == b[i] {
    }
  }

  method GetNetworkPanel(run: ProfilerRun) returns (r: Outcome<Panel>)
    ensures r == NetworkPanelOf(run)
  {
    match run
    case Unavailable => return Raised(SystemExit);
    case Printed(None) => return Raised(SystemExit);
    case Printed(Some(data)) =>
      var interfaces :- Get(data, "SPNetworkDataType", JList([]));
      var entries :- DictEntries(interfaces);
      var interfacesInfo := ExtractInterfaces(entries);
      if interfacesInfo.Raised? {
        return Raised(interfacesInfo.kind);
      }
      var sorted :- SortByOrder(interfacesInfo.value);
      var active, inactive := Partition(sorted);
      var rows :- AddRows(active, inactive);
      RowsForUnique(rows, RowsOf(active, inactive), active, inactive);
      r := Ok(TablePanel(rows));
  }

  /** A missing or failing `system_profiler`, or output that is not JSON,
      ends the process; nothing else does. */
  lemma NetworkPanelExits(run: ProfilerRun)
    ensures NetworkPanelOf(run) == Raised(SystemExit) <==> run.Unavailable? || run.parsed.None?
  {
  }

  /** No interfaces, or no `SPNetworkDataType` at all, still gives the titled
      panel, with no rows. */
  lemma EmptyNetworkPanel(data: Json)
    requires data == JObject(map[]) || data == JObject(map["SPNetworkDataType" := JList([])])
    ensures NetworkPanelOf(Printed(Some(data))) == Ok(Panel(Table([]), "dim green", Some(NetworkTitle)))
  {
    assert Sortable([]);
  }

  /** A record's row can be added wherever the record sits: whether every
      row renders depends only on which records there are. */
  lemma AllShownMembers(xs: seq<Interface>)
    ensures AllShown(xs) <==> forall x :: x in xs ==> Shown(x)
  {
    if AllShown(xs) {
      forall x | x in xs ensures Shown(x) {
        var i :| 0 <= i < |xs| && xs[i] == x;
      }
    }
  }

  /** Every row of the table renders exactly when every record read from the
      output does, whichever group each record lands in after the sort. */
  lemma {:induction false} AllShownSorted(infos: seq<Interface>)
    requires Sortable(infos)
    ensures AllShown(Active(Sort(infos))) && AllShown(Inactive(Sort(infos))) <==> AllShown(infos)
  {
    var sorted := Sort(infos);
    assert SortByOrder(infos) == Ok(sorted);
    PartitionFacts(sorted);
    AllShownMembers(infos);
    AllShownMembers(sorted);
    AllShownMembers(Active(sorted));
    AllShownMembers(Inactive(sorted));
    forall x ensures x in infos <==> x in sorted {
      assert x in infos <==> x in multiset(infos);
      assert x in sorted <==> x in multiset(sorted);
    }
  }

  /** Past extraction and the sort, the panel is the table of the sorted
      records if every row renders, and the raised error otherwise. */
  lemma {:induction false} NetworkPanelAfterSort(data: Json, entries: seq<Json>, infos: seq<Interface>)
    requires Get(data, "SPNetworkDataType", JList([])).Ok?
    requires DictEntries(Get(data, "SPNetworkDataType", JList([])).value) == Ok(entries)
    requires ExtractAll(entries) == Ok(infos) && Sortable(infos)
    ensures NetworkPanelOf(Printed(Some(data))) ==
      if AllShown(infos) then Ok(TablePanel(RowsOf(Active(Sort(infos)), Inactive(Sort(infos)))))
      else Raised(Error)
  {
    assert SortByOrder(infos) == Ok(Sort(infos));
    AllShownSorted(infos);
  }

  /** Every interface of the output is shown exactly once: the rows are the
      sorted records, active ones first (with an address) then inactive ones
      (without), each group in service order, and records with equal orders
      keep their order in the output of `system_profiler`. A record whose
      type or name is not a string or null makes adding its row raise, and
      then there is no panel at all. */
  lemma NetworkPanelRows(data: Json, entries: seq<Json>, infos: seq<Interface>)
    requires Get(data, "SPNetworkDataType", JList([])).Ok?
    requires DictEntries(Get(data, "SPNetworkDataType", JList([])).value) == Ok(entries)
    requires ExtractAll(entries) == Ok(infos) && Sortable(infos)
    ensures NetworkPanelOf(Printed(Some(data))).Ok? <==> AllShown(infos)
    ensures !AllShown(infos) ==> NetworkPanelOf(Printed(Some(data))) == Raised(Error)
    ensures AllShown(infos) ==>
      var rows := NetworkPanelOf(Printed(Some(data))).value.content.rows;
      var sorted := Sort(infos);
      && |rows| == |entries|
      && multiset(Active(sorted)) + multiset(Inactive(sorted)) == multiset(infos)
      && Sorted(Active(sorted)) && Sorted(Inactive(sorted))
      && (forall x :: x in Active(sorted) ==> IsActive(x))
      && (forall x :: x in Inactive(sorted) ==> !IsActive(x))
      && RowsFor(rows, Active(sorted), Inactive(sorted))
      && (forall key :: WithKey(Active(sorted), key) == Active(WithKey(infos, key)))
      && (forall key :: WithKey(Inactive(sorted), key) == Inactive(WithKey(infos, key)))
  {
    var sorted := Sort(infos);
    assert SortByOrder(infos) == Ok(sorted);
    NetworkPanelAfterSort(data, entries, infos);
    PartitionFacts(sorted);
    forall key ensures WithKey(Active(sorted), key) == Active(WithKey(infos, key))
      && WithKey(Inactive(sorted), key) == Inactive(WithKey(infos, key))
    {
      SortIsStable(infos, key);
    }
  }
}
