/** The loop of `parse_connect_to` in `src/dns.rs`, over a map in whatever order it is enumerated.

    What an origin or an address is does not matter to the loop, so it is told for arbitrary parsers of both and
    then applied to the real ones. */
module ConnectTo {
  import opened Basics
  import opened Dns

  datatype Parser = Parser(origin: string -> Result<Origin, Error>, address: string -> Result<SocketAddr, Error>)

  // ----- The map -----

  datatype Override = Override(origin: Origin, address: SocketAddr)

  /** An entry that is fine by itself: a valid origin and an address that the family permits. */
  function ParseEntry(parser: Parser, family: Family, key: string, value: string): Result<Override, Error> {
    match parser.origin(key)
    case Err(why) => Err(why)
    case Ok(origin) =>
      match parser.address(value)
      case Err(why) => Err(why)
      case Ok(address) =>
        if FamilyAllows(family, address.ip) then Ok(Override(origin, address)) else Err(FamilyExcludes)
  }

  predicate EntryOk(parser: Parser, family: Family, entry: (string, string)) {
    ParseEntry(parser, family, entry.0, entry.1).Ok?
  }

  function EntryOverride(parser: Parser, family: Family, entry: (string, string)): Override
    requires EntryOk(parser, family, entry)
  {
    ParseEntry(parser, family, entry.0, entry.1).value
  }

  /** What an entry needs by itself, and which of its faults is told: that of the origin before that of the address,
      and that before the family. */
  lemma EntryJudged(parser: Parser, family: Family, key: string, value: string)
    ensures var r := ParseEntry(parser, family, key, value);
            && (r.Ok? <==> parser.origin(key).Ok? && parser.address(value).Ok?
                           && FamilyAllows(family, parser.address(value).value.ip))
            && (r.Ok? ==> Ok(r.value.origin) == parser.origin(key) && Ok(r.value.address) == parser.address(value))
            && (parser.origin(key).Err? ==> r == Err(parser.origin(key).error))
            && (parser.origin(key).Ok? && parser.address(value).Err? ==> r == Err(parser.address(value).error))
            && (r.Err? && parser.origin(key).Ok? && parser.address(value).Ok? ==> r.error == FamilyExcludes)
  {
  }

  /** Every entry is fine by itself and no two name the same normalized origin. No order is involved. */
  ghost predicate Acceptable(parser: Parser, family: Family, entries: map<string, string>) {
    && (forall k :: k in entries ==> EntryOk(parser, family, (k, entries[k])))
    && (forall k, l :: k in entries && l in entries && k != l ==>
          parser.origin(k) != parser.origin(l))
  }

  ghost function Overrides(parser: Parser, family: Family, entries: map<string, string>): set<Override>
    requires Acceptable(parser, family, entries)
  {
    set k | k in entries :: EntryOverride(parser, family, (k, entries[k]))
  }

  /** `order` lists every entry of the map once. */
  ghost predicate Enumerates(order: seq<(string, string)>, entries: map<string, string>) {
    && (forall i :: 0 <= i < |order| ==> order[i].0 in entries && entries[order[i].0] == order[i].1)
    && (forall i, j :: 0 <= i < j < |order| ==> order[i].0 != order[j].0)
    && (forall k :: k in entries ==> (k, entries[k]) in order)
  }

  function Listed(overrides: seq<Override>, origin: Origin): (found: bool)
    ensures found <==> exists i :: 0 <= i < |overrides| && overrides[i].origin == origin
  {
    if overrides == [] then false
    else
      var found := Listed(overrides[1..], origin);
      assert found ==> exists i :: 0 <= i < |overrides[1..]| && overrides[1..][i].origin == origin;
      overrides[0].origin == origin || found
  }

  predicate Repeats(parser: Parser, key: string, overrides: seq<Override>) {
    parser.origin(key).Ok? && Listed(overrides, parser.origin(key).value)
  }

  /** One turn of the loop: the origin, its repetition, the address and its family are checked in this order. */
  method CheckEntry(parser: Parser, family: Family, key: string, value: string, overrides: seq<Override>)
      returns (r: Result<Override, Error>)
    ensures Repeats(parser, key, overrides) ==> r == Err(ListedTwice)
    ensures !Repeats(parser, key, overrides) ==> r == ParseEntry(parser, family, key, value)
    ensures r.Ok? ==> !Listed(overrides, r.value.origin)
  {
    var origin := parser.origin(key);
    if origin.Err? {
      return Err(origin.error);
    }
    if Listed(overrides, origin.value) {
      return Err(ListedTwice);
    }
    var address := parser.address(value);
    if address.Err? {
      return Err(address.error);
    }
    if !FamilyAllows(family, address.value.ip) {
      return Err(FamilyExcludes);
    }
    r := Ok(Override(origin.value, address.value));
  }

  /** What the loop has collected from the first entries. */
  ghost predicate Collected(parser: Parser, family: Family, order: seq<(string, string)>, overrides: seq<Override>) {
    && |overrides| <= |order|
    && (forall j :: 0 <= j < |overrides| ==> Ok(overrides[j]) == ParseEntry(parser, family, order[j].0, order[j].1))
    && (forall j, k :: 0 <= j < k < |overrides| ==> overrides[j].origin != overrides[k].origin)
  }

  /** The loop over the map. Success and the set of overrides do not depend on the order of enumeration. */
  method ParseEntries(parser: Parser, family: Family, order: seq<(string, string)>, ghost entries: map<string, string>)
      returns (r: Result<seq<Override>, Error>)
    requires Enumerates(order, entries)
    ensures r.Ok? <==> Acceptable(parser, family, entries)
    ensures r.Ok? ==> |r.value| == |order| && (set o | o in r.value) == Overrides(parser, family, entries)
    ensures r.Ok? ==> forall i, j :: 0 <= i < j < |r.value| ==> r.value[i].origin != r.value[j].origin
    ensures r.Err? ==> exists i :: 0 <= i < |order| && DeservesError(parser, family, order, i, r.error)
  {
    var overrides: seq<Override> := [];
    for i := 0 to |order|
      invariant |overrides| == i && Collected(parser, family, order, overrides)
    {
      var checked := CheckEntry(parser, family, order[i].0, order[i].1, overrides);
      if checked.Err? {
        Rejected(parser, family, order, entries, overrides, checked.error);
        return Err(checked.error);
      }
      overrides := overrides + [checked.value];
    }
    AllAcceptable(parser, family, order, entries, overrides);
    SameOverrides(parser, family, order, entries, overrides);
    r := Ok(overrides);
  }

  /** The error is the entry's own, or it repeats an origin listed before it. */
  predicate DeservesError(parser: Parser, family: Family, order: seq<(string, string)>, i: nat, error: Error)
    requires i < |order|
  {
    || ParseEntry(parser, family, order[i].0, order[i].1) == Err(error)
    || (error == ListedTwice && exists j :: 0 <= j < i && parser.origin(order[j].0) == parser.origin(order[i].0))
  }

  lemma Rejected(parser: Parser, family: Family, order: seq<(string, string)>, entries: map<string, string>,
                 overrides: seq<Override>, error: Error)
    requires Enumerates(order, entries) && |overrides| < |order| && Collected(parser, family, order, overrides)
    requires || ParseEntry(parser, family, order[|overrides|].0, order[|overrides|].1) == Err(error)
             || (error == ListedTwice
                 && Repeats(parser, order[|overrides|].0, overrides))
    ensures DeservesError(parser, family, order, |overrides|, error)
    ensures !Acceptable(parser, family, entries)
  {
    var i := |overrides|;
    if ParseEntry(parser, family, order[i].0, order[i].1) == Err(error) {
      Unacceptable(parser, family, order, entries, i);
    } else {
      var j := RepeatedAt(parser, family, order, overrides, order[i].0);
      TwiceUnacceptable(parser, family, order, entries, j, i);
    }
  }

  lemma RepeatedAt(parser: Parser, family: Family, order: seq<(string, string)>, overrides: seq<Override>, key: string)
      returns (j: nat)
    requires Collected(parser, family, order, overrides)
    requires Repeats(parser, key, overrides)
    ensures j < |overrides| && parser.origin(order[j].0) == parser.origin(key)
  {
    j :| 0 <= j < |overrides| && overrides[j].origin == parser.origin(key).value;
    OriginOfOverride(parser, family, order[j].0, order[j].1, overrides[j]);
  }

  lemma Unacceptable(parser: Parser, family: Family, order: seq<(string, string)>, entries: map<string, string>, i: nat)
    requires Enumerates(order, entries) && i < |order| && !EntryOk(parser, family, order[i])
    ensures !Acceptable(parser, family, entries)
  {
    assert order[i] == (order[i].0, entries[order[i].0]);
  }

  lemma TwiceUnacceptable(
      parser: Parser, family: Family, order: seq<(string, string)>, entries: map<string, string>, i: nat, j: nat)
    requires Enumerates(order, entries) && i < j < |order|
    requires parser.origin(order[i].0) == parser.origin(order[j].0)
    ensures !Acceptable(parser, family, entries)
  {
    assert order[i].0 in entries && order[j].0 in entries && order[i].0 != order[j].0;
  }

  lemma PlaceOf(order: seq<(string, string)>, entries: map<string, string>, k: string) returns (i: nat)
    requires Enumerates(order, entries) && k in entries
    ensures i < |order| && order[i] == (k, entries[k])
  {
    assert (k, entries[k]) in order;
    i :| i < |order| && order[i] == (k, entries[k]);
  }

  lemma OriginOfOverride(parser: Parser, family: Family, key: string, value: string, override: Override)
    requires ParseEntry(parser, family, key, value) == Ok(override)
    ensures parser.origin(key) == Ok(override.origin)
  {
  }

  lemma AllAcceptable(parser: Parser, family: Family, order: seq<(string, string)>, entries: map<string, string>,
                      overrides: seq<Override>)
    requires Enumerates(order, entries) && |overrides| == |order| && Collected(parser, family, order, overrides)
    ensures Acceptable(parser, family, entries)
  {
    forall k | k in entries
      ensures EntryOk(parser, family, (k, entries[k]))
    {
      var i := PlaceOf(order, entries, k);
      assert Ok(overrides[i]) == ParseEntry(parser, family, order[i].0, order[i].1);
    }
    forall k, l | k in entries && l in entries && k != l
      ensures parser.origin(k) != parser.origin(l)
    {
      var i := PlaceOf(order, entries, k);
      var j := PlaceOf(order, entries, l);
      OriginOfOverride(parser, family, order[i].0, order[i].1, overrides[i]);
      OriginOfOverride(parser, family, order[j].0, order[j].1, overrides[j]);
    }
  }

  lemma SameOverrides(parser: Parser, family: Family, order: seq<(string, string)>, entries: map<string, string>,
                      overrides: seq<Override>)
    requires Enumerates(order, entries) && |overrides| == |order| && Collected(parser, family, order, overrides)
    requires Acceptable(parser, family, entries)
    ensures (set o | o in overrides) == Overrides(parser, family, entries)
  {
    forall o | o in overrides
      ensures o in Overrides(parser, family, entries)
    {
      var i :| 0 <= i < |overrides| && overrides[i] == o;
      assert Ok(overrides[i]) == ParseEntry(parser, family, order[i].0, order[i].1);
      assert order[i].0 in entries && entries[order[i].0] == order[i].1;
      assert EntryOverride(parser, family, (order[i].0, entries[order[i].0])) == o;
    }
    forall o | o in Overrides(parser, family, entries)
      ensures o in overrides
    {
      var k :| k in entries && o == EntryOverride(parser, family, (k, entries[k]));
      var i := PlaceOf(order, entries, k);
      assert Ok(overrides[i]) == ParseEntry(parser, family, order[i].0, order[i].1);
    }
  }

  /** The parsers of the source. */
  function Parsers(lib: Library): Parser {
    Parser((key: string) => ParseOrigin(lib, key), (value: string) => ParseAddress(lib, value))
  }

  method ParseConnectTo(lib: Library, family: Family, order: seq<(string, string)>, ghost entries: map<string, string>)
      returns (r: Result<seq<Override>, Error>)
    requires Enumerates(order, entries)
    ensures r.Ok? <==> Acceptable(Parsers(lib), family, entries)
    ensures r.Ok? ==> (set o | o in r.value) == Overrides(Parsers(lib), family, entries) && |r.value| == |order|
    ensures r.Ok? ==> forall i :: 0 <= i < |r.value| ==> Dialable(lib, family, entries, r.value[i])
    ensures r.Err? ==> exists i :: 0 <= i < |order| && DeservesError(Parsers(lib), family, order, i, r.error)
  {
    r := ParseEntries(Parsers(lib), family, order, entries);
    if r.Ok? {
      forall i | 0 <= i < |r.value|
        ensures Dialable(lib, family, entries, r.value[i])
      {
        assert r.value[i] in Overrides(Parsers(lib), family, entries);
        OverrideDialable(lib, family, entries, r.value[i]);
      }
    }
  }

  /** The override comes from an entry of the map, and its address can be dialled under the family. */
  ghost predicate Dialable(lib: Library, family: Family, entries: map<string, string>, override: Override) {
    && (exists k :: k in entries && ParseOrigin(lib, k) == Ok(override.origin)
                    && lib.parseAddr(entries[k]) == Some(override.address))
    && 1 <= override.origin.port <= 65535 && override.address.port != 0
    && (family == Ipv4 ==> override.address.ip.V4?)
    && (family == Ipv6 ==> override.address.ip.V6? && !IsMapped(override.address.ip))
  }

  lemma OverrideDialable(lib: Library, family: Family, entries: map<string, string>, override: Override)
    requires Acceptable(Parsers(lib), family, entries) && override in Overrides(Parsers(lib), family, entries)
    ensures Dialable(lib, family, entries, override)
  {
    var k :| k in entries && override == EntryOverride(Parsers(lib), family, (k, entries[k]));
    assert EntryOk(Parsers(lib), family, (k, entries[k]));
    EntryJudged(Parsers(lib), family, k, entries[k]);
    AddressParsedIff(lib, entries[k], override.address);
  }
}
