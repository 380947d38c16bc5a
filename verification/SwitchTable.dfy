/** Decoding the tables a switch reports over SNMP: snmpwalk text to rows, and forwarding-table rows
    (section 5 of RFC 4363) to the places where MAC addresses were learned. */
module SwitchTable {
  import opened Text
  import opened Wrappers
  import TextLayout

  // ---- pieces of text ----

  /** strings.Split at one character. */
  function SplitAt(s: string, c: char): (parts: seq<string>)
    ensures parts != []
  {
    if s == "" then [""]
    else
      var rest := SplitAt(s[1..], c);
      if s[0] == c then [""] + rest else [[s[0]] + rest[0]] + rest[1..]
  }

  /** strings.SplitN(s, sep, 2), when it gives two parts. */
  function CutAt(s: string, sep: string): Option<(string, string)>
    requires sep != ""
    decreases |s|
  {
    if |s| < |sep| then None
    else if s[..|sep|] == sep then Some(("", s[|sep|..]))
    else
      var rest :- CutAt(s[1..], sep);
      Some(([s[0]] + rest.0, rest.1))
  }

  predicate HasPrefix(s: string, prefix: string) {
    |prefix| <= |s| && s[..|prefix|] == prefix
  }

  function TrimPrefix(s: string, prefix: string): string {
    if HasPrefix(s, prefix) then s[|prefix|..] else s
  }

  /** What follows the first colon, or everything. */
  function AfterColon(s: string): string {
    if ':' !in s then s else if s[0] == ':' then s[1..] else AfterColon(s[1..])
  }

  function QuotesEnd(s: string): string {
    if s != "" && s[|s| - 1] == '"' then QuotesEnd(s[..|s| - 1]) else s
  }

  function QuotesStart(s: string): string {
    if s != "" && s[0] == '"' then QuotesStart(s[1..]) else s
  }

  /** strings.Trim with the quote. */
  function TrimQuotes(s: string): string {
    QuotesStart(QuotesEnd(s))
  }

  const INT_LIMIT: int := 0x8000_0000_0000_0000

  /** strconv.Atoi, on 64-bit int. */
  function Atoi(s: string): Option<int> {
    var signed := s != "" && (s[0] == '+' || s[0] == '-');
    var digits := if signed then s[1..] else s;
    if digits == "" || !AllDigits(digits) then None
    else
      var value: int := if signed && s[0] == '-' then -(Value(digits) as int) else Value(digits);
      if -INT_LIMIT <= value < INT_LIMIT then Some(value) else None
  }

  // ---- snmpwalk output ----

  function ParseLine(raw: string, base: string): Option<(string, string)> {
    var line := TextLayout.TrimSpace(raw);
    if !HasPrefix(line, base + ".") then None
    else
      var parts :- CutAt(line, " = ");
      var value := TrimQuotes(TextLayout.TrimSpace(AfterColon(parts.1)));
      if value == "" || HasPrefix(value, "No Such") then None
      else Some((TrimPrefix(parts.0, base + "."), value))
  }

  function TableOf(lines: seq<string>, base: string): map<string, string> {
    if lines == [] then map[]
    else
      var rest := TableOf(lines[..|lines| - 1], base);
      var row := ParseLine(lines[|lines| - 1], base);
      if row.None? then rest else rest[row.value.0 := row.value.1]
  }

  method ParseSnmpTable(raw: string, baseOid: string) returns (table: map<string, string>)
    ensures table == TableOf(SplitAt(raw, '\n'), baseOid)
  {
    table := map[];
    var lines := SplitAt(raw, '\n');
    for i := 0 to |lines|
      invariant table == TableOf(lines[..i], baseOid)
    {
      assert lines[..i + 1][..i] == lines[..i];
      var line := TextLayout.TrimSpace(lines[i]);
      if !HasPrefix(line, baseOid + ".") {
        continue;
      }
      var parts := CutAt(line, " = ");
      if parts.None? {
        continue;
      }
      var key := TrimPrefix(parts.value.0, baseOid + ".");
      var value := TrimQuotes(TextLayout.TrimSpace(AfterColon(parts.value.1)));
      if value != "" && !HasPrefix(value, "No Such") {
        table := table[key := value];
      }
    }
    assert lines[..|lines|] == lines;
  }

  // ---- places ----

  datatype Location = Location(mac: string, vlan: string, bridgePort: string, ifIndex: string, ifName: string)

  function FirstAmong(fields: seq<string>, otherwise: string): string {
    if fields == [] then otherwise
    else if Atoi(fields[0]).Some? then fields[0] else FirstAmong(fields[1..], otherwise)
  }

  function FirstNumber(value: string): string {
    FirstAmong(TextLayout.Fields(value), TextLayout.TrimSpace(value))
  }

  /** Go's map index: the empty string for a missing key. */
  function Lookup(table: map<string, string>, key: string): string {
    if key in table then table[key] else ""
  }

  /** fmt's %02x of one octet. */
  function Hex2(v: nat): string
    requires v < 256
  {
    [HexDigit(v / 16), HexDigit(v % 16)]
  }

  function Octet(part: string): (v: Option<nat>)
    ensures v.Some? ==> v.value < 256
  {
    var value := Atoi(part);
    if value.None? || value.value < 0 || value.value > 255 then None else Some(value.value)
  }

  function HexParts(parts: seq<string>): Option<seq<string>> {
    if parts == [] then Some([])
    else
      var front :- HexParts(parts[..|parts| - 1]);
      var v :- Octet(parts[|parts| - 1]);
      Some(front + [Hex2(v)])
  }

  /** The MAC address and the forwarding database id in the text of a table index. */
  function Decode(key: string): Option<(string, string)> {
    var parts := SplitAt(key, '.');
    if |parts| < 7 then None
    else
      var mac :- HexParts(parts[|parts| - 6..]);
      Some((Join(mac, ":"), Join(parts[..|parts| - 6], ".")))
  }

  function Locate(key: string, port: string, bridgePorts: map<string, string>,
                  ifNames: map<string, string>): Option<Location> {
    var at :- Decode(key);
    var bridgePort := FirstNumber(port);
    var ifIndex := FirstNumber(Lookup(bridgePorts, bridgePort));
    Some(Location(at.0, at.1, bridgePort, ifIndex, Lookup(ifNames, ifIndex)))
  }

  /** The keys among some whose row gives this location. */
  ghost function RowsAt(keys: set<string>, fdb: map<string, string>, bridgePorts: map<string, string>,
                        ifNames: map<string, string>, l: Location): set<string>
    requires keys <= fdb.Keys
  {
    set k | k in keys && Locate(k, fdb[k], bridgePorts, ifNames) == Some(l)
  }

  ghost predicate ByMac(s: seq<Location>) {
    forall i, j :: 0 <= i < j < |s| ==> !TextLess(s[j].mac, s[i].mac)
  }

  /** buildSwitchPortLocations, whatever the order of map iteration: as many equal locations as
      rows that give it, no others, in the order of MAC addresses. */
  method BuildSwitchPortLocations(fdb: map<string, string>, bridgePorts: map<string, string>,
                                  ifNames: map<string, string>)
    returns (locations: seq<Location>)
    ensures ByMac(locations)
    ensures forall l :: multiset(locations)[l] == |RowsAt(fdb.Keys, fdb, bridgePorts, ifNames, l)|
  {
    hide Locate, RowsAt;
    locations := [];
    var left := fdb.Keys;
    RowsNone(fdb, bridgePorts, ifNames);
    assert fdb.Keys - left == {};
    while left != {}
      invariant left <= fdb.Keys
      invariant forall l :: multiset(locations)[l] == |RowsAt(fdb.Keys - left, fdb, bridgePorts, ifNames, l)|
    {
      var key :| key in left;
      var location := LocateRow(key, fdb[key], bridgePorts, ifNames);
      RowsNext(fdb, bridgePorts, ifNames, fdb.Keys - left, key);
      assert fdb.Keys - left + {key} == fdb.Keys - (left - {key});
      left := left - {key};
      if location.Some? {
        locations := locations + [location.value];
      }
    }
    assert fdb.Keys - {} == fdb.Keys;
    locations := SortByMac(locations);
  }

  lemma RowsNone(fdb: map<string, string>, bridgePorts: map<string, string>, ifNames: map<string, string>)
    ensures forall l :: RowsAt({}, fdb, bridgePorts, ifNames, l) == {}
  {
    hide Locate;
  }

  lemma RowsNext(fdb: map<string, string>, bridgePorts: map<string, string>, ifNames: map<string, string>,
                 done: set<string>, key: string)
    requires done <= fdb.Keys && key in fdb && key !in done
    ensures forall l ::
      |RowsAt(done + {key}, fdb, bridgePorts, ifNames, l)|
      == |RowsAt(done, fdb, bridgePorts, ifNames, l)| + if Locate(key, fdb[key], bridgePorts, ifNames) == Some(l)
          then 1 else 0
  {
    forall l {
      RowsNextAt(fdb, bridgePorts, ifNames, done, key, l);
    }
  }

  lemma RowsNextAt(fdb: map<string, string>, bridgePorts: map<string, string>, ifNames: map<string, string>,
                   done: set<string>,
                   key: string, l: Location)
    requires done <= fdb.Keys && key in fdb && key !in done
    ensures |RowsAt(done + {key}, fdb, bridgePorts, ifNames, l)|
      == |RowsAt(done, fdb, bridgePorts, ifNames, l)| + if Locate(key, fdb[key], bridgePorts, ifNames) == Some(l)
          then 1 else 0
  {
    hide Locate;
    var before, after := RowsAt(done, fdb, bridgePorts, ifNames, l), RowsAt(done + {key}, fdb, bridgePorts, ifNames, l);
    if Locate(key, fdb[key], bridgePorts, ifNames) == Some(l) {
      assert after == before + {key};
    } else {
      assert after == before;
    }
  }

  /** The body of the loop over the forwarding table. */
  method LocateRow(key: string, port: string, bridgePorts: map<string, string>, ifNames: map<string, string>)
    returns (location: Option<Location>)
    ensures location == Locate(key, port, bridgePorts, ifNames)
    ensures var parts := SplitAt(key, '.');
      location.None? <==> |parts| < 7 || Malformed(parts[|parts| - 6..])
  {
    hide FirstNumber, Lookup, Octet, Join;
    DecodeFails(key);
    var parts := SplitAt(key, '.');
    if |parts| < 7 {
      return None;
    }
    var macParts := parts[|parts| - 6..];
    var mac: seq<string> := [];
    for i := 0 to |macParts|
      invariant HexParts(macParts[..i]) == Some(mac)
    {
      assert macParts[..i + 1][..i] == macParts[..i];
      var value := Octet(macParts[i]);
      if value.None? {
        HexPartsMeans(macParts);
        assert Malformed(macParts);
        return None;
      }
      mac := mac + [Hex2(value.value)];
    }
    assert macParts[..|macParts|] == macParts;
    var vlan := Join(parts[..|parts| - 6], ".");
    var bridgePort := FirstNumber(port);
    var ifIndex := FirstNumber(Lookup(bridgePorts, bridgePort));
    return Some(Location(Join(mac, ":"), vlan, bridgePort, ifIndex, Lookup(ifNames, ifIndex)));
  }

  /** Some part is no number from 0 to 255. */
  ghost predicate Malformed(parts: seq<string>) {
    exists i :: 0 <= i < |parts| && Octet(parts[i]).None?
  }

  /** All parts are converted in order, or nothing is. */
  lemma {:induction false} HexPartsMeans(parts: seq<string>)
    ensures HexParts(parts).None? <==> Malformed(parts)
    ensures HexParts(parts).Some? ==> |HexParts(parts).value| == |parts|
    ensures HexParts(parts).Some? ==> forall i :: 0 <= i < |parts| ==>
              Octet(parts[i]).Some? && HexParts(parts).value[i] == Hex2(Octet(parts[i]).value)
  {
    hide Octet, Hex2;
    if parts != [] {
      HexPartsMeans(parts[..|parts| - 1]);
    }
  }

  /** A key gives nothing exactly when it has fewer than seven parts or one of its last six is no
      number from 0 to 255. */
  lemma DecodeFails(key: string)
    ensures var parts := SplitAt(key, '.');
      Decode(key).None? <==> |parts| < 7 || Malformed(parts[|parts| - 6..])
  {
    hide Octet, Join, SplitAt;
    var parts := SplitAt(key, '.');
    if |parts| >= 7 {
      HexPartsMeans(parts[|parts| - 6..]);
    }
  }

  function InsertByMac(s: seq<Location>, x: Location): seq<Location> {
    if s == [] then [x] else if TextLess(x.mac, s[0].mac) then [x] + s else [s[0]] + InsertByMac(s[1..], x)
  }

  lemma {:induction false} InsertedKeeps(s: seq<Location>, x: Location)
    ensures multiset(InsertByMac(s, x)) == multiset(s) + multiset{x}
    ensures forall l :: l in InsertByMac(s, x) ==> l == x || l in s
  {
    if s != [] {
      assert s == [s[0]] + s[1..];
      if !TextLess(x.mac, s[0].mac) {
        InsertedKeeps(s[1..], x);
      }
    }
  }

  lemma {:induction false} InsertedByMac(s: seq<Location>, x: Location)
    requires ByMac(s)
    ensures ByMac(InsertByMac(s, x))
  {
    hide TextLess;
    if s != [] {
      if TextLess(x.mac, s[0].mac) {
        forall j | 0 <= j < |s| ensures !TextLess(s[j].mac, x.mac) {
          TextLessTrichotomy(x.mac, s[0].mac);
          TextLessTrichotomy(s[0].mac, s[0].mac);
          TextLessTransitive(x.mac, s[0].mac, s[j].mac);
        }
      } else {
        InsertedByMac(s[1..], x);
        InsertedKeeps(s[1..], x);
        var rest := InsertByMac(s[1..], x);
        forall j | 0 <= j < |rest| ensures !TextLess(rest[j].mac, s[0].mac) {
          assert rest[j] in rest;
        }
      }
    }
  }

  /** sort.Slice by MAC address. */
  method SortByMac(s: seq<Location>) returns (r: seq<Location>)
    ensures ByMac(r) && multiset(r) == multiset(s)
  {
    r := [];
    for i := 0 to |s|
      invariant ByMac(r) && multiset(r) == multiset(s[..i])
    {
      InsertedByMac(r, s[i]);
      InsertedKeeps(r, s[i]);
      r := InsertByMac(r, s[i]);
      assert s[..i + 1] == s[..i] + [s[i]];
    }
    assert s[..|s|] == s;
  }
}
