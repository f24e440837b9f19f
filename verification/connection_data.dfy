/**
 * The connection table of an `AuctionConfiguration`: one "id:host:port" entry
 * per party. The host writes it with `String.format("%d:%s:%d", ...)`; a member
 * reads each entry back with `split(":")` and `Integer.parseInt`.
 */
module ConnectionData {
  import opened Wrappers
  import opened Decimal
  import opened Protocol

  /** The address every party is reached at when the member runs in the Android emulator. */
  const EmulatorHostIpAddress := "10.0.2.2"

  /**
   * One entry of the table, `"%d:%s:%d"` of party id, host name and port. Its
   * ':'-separated fields are the id, the fields of the host name and the port,
   * so with a host name free of ':' the member's split gives back the three
   * values written.
   */
  function FormatEntry(p: Party): (e: string)
    ensures Fields(e) == [IntToString(p.partyId)] + Fields(p.hostname) + [IntToString(p.port)]
    ensures ':' !in p.hostname ==> Split(e) == [IntToString(p.partyId), p.hostname, IntToString(p.port)]
  {
    var id, port := IntToString(p.partyId), IntToString(p.port);
    EntryFields(id, p.hostname, port);
    id + ":" + p.hostname + ":" + port
  }

  /** Three ':'-joined parts, the outer two non-empty and free of ':', split around the middle one. */
  lemma {:induction false} EntryFields(id: string, host: string, port: string)
    requires ':' !in id && ':' !in port && port != []
    ensures Fields(id + ":" + host + ":" + port) == [id] + Fields(host) + [port]
    ensures ':' !in host ==> Split(id + ":" + host + ":" + port) == [id, host, port]
  {
    var e := id + ":" + host + ":" + port;
    assert e == id + ":" + (host + ":" + port);
    FieldsLeadingGroup(id, host + ":" + port);
    FieldsTrailingGroup(host, port);
    if ':' !in host {
      FieldsNoSeparator(host);
      SplitKeepsAll(e);
    }
  }

  // ---------------------------------------------------------------------------
  // String.split(":")
  // ---------------------------------------------------------------------------

  /** All the ':'-separated fields of `s`, empty ones included. */
  function Fields(s: string): (r: seq<string>)
    ensures |r| >= 1
    decreases |s|
  {
    if s == [] then [""]
    else
      var rest := Fields(s[1..]);
      if s[0] == ':' then [""] + rest else [[s[0]] + rest[0]] + rest[1..]
  }

  /** The fields joined again with ':' between them. */
  function Join(fields: seq<string>): string
    requires |fields| >= 1
  {
    if |fields| == 1 then fields[0] else Join(fields[..|fields| - 1]) + ":" + fields[|fields| - 1]
  }

  /** The field list without its trailing empty strings. */
  function DropTrailingEmpty(fields: seq<string>): (r: seq<string>)
    ensures |r| <= |fields| && r == fields[..|r|]
    ensures r == [] || r[|r| - 1] != ""
  {
    if fields != [] && fields[|fields| - 1] == "" then DropTrailingEmpty(fields[..|fields| - 1]) else fields
  }

  /** `k` separators. */
  function Separators(k: nat): (t: string)
    ensures |t| == k && forall i :: 0 <= i < k ==> t[i] == ':'
  {
    seq(k, _ => ':')
  }

  /**
   * `s.split(":")`: a string without ':' is its own single field; otherwise the
   * fields with trailing empty strings removed.
   */
  function Split(s: string): (r: seq<string>)
    ensures ':' !in s ==> r == [s]
    ensures ':' in s ==> r == DropTrailingEmpty(Fields(s))
  {
    if ':' !in s then [s] else DropTrailingEmpty(Fields(s))
  }

  /** A string with several fields, the last one non-empty, splits into all its fields. */
  lemma {:induction false} SplitKeepsAll(s: string)
    requires |Fields(s)| > 1 && Fields(s)[|Fields(s)| - 1] != ""
    ensures Split(s) == Fields(s)
  {
    if ':' !in s {
      FieldsNoSeparator(s);
    }
  }

  /**
   * What `split(":")` promises: no field holds a ':', and joining the fields
   * with ':' gives `s` back but for the trailing separators of the dropped
   * empty fields; when every field is dropped, `s` is all separators.
   */
  lemma {:induction false} SplitJoin(s: string)
    ensures forall i :: 0 <= i < |Split(s)| ==> ':' !in Split(s)[i]
    ensures |Split(s)| <= |Fields(s)|
    ensures Split(s) != [] ==> s == Join(Split(s)) + Separators(|Fields(s)| - |Split(s)|)
    ensures Split(s) == [] ==> s == Separators(|s|)
  {
    FieldsSeparatorFree(s);
    JoinFields(s);
    if ':' !in s {
      FieldsNoSeparator(s);
      assert s + Separators(0) == s;
    } else {
      JoinDropped(Fields(s));
    }
  }

  /** No field holds a ':'. */
  lemma {:induction false} FieldsSeparatorFree(s: string)
    ensures forall i :: 0 <= i < |Fields(s)| ==> ':' !in Fields(s)[i]
    decreases |s|
  {
    if s != [] {
      FieldsSeparatorFree(s[1..]);
      var rest := Fields(s[1..]);
      if s[0] != ':' {
        assert Fields(s) == [[s[0]] + rest[0]] + rest[1..];
        assert forall i :: 1 <= i < |Fields(s)| ==> Fields(s)[i] == rest[i];
      }
    }
  }

  /**
   * Joining a field list equals joining it without its trailing empty fields,
   * followed by one separator per dropped field.
   */
  lemma {:induction false} JoinDropped(fields: seq<string>)
    requires |fields| >= 1
    ensures DropTrailingEmpty(fields) != [] ==>
              Join(fields) == Join(DropTrailingEmpty(fields)) + Separators(|fields| - |DropTrailingEmpty(fields)|)
    ensures DropTrailingEmpty(fields) == [] ==> Join(fields) == Separators(|fields| - 1)
  {
    var n := |fields|;
    if fields[n - 1] != "" {
      assert Join(fields) + Separators(0) == Join(fields);
    } else if n > 1 {
      var init := fields[..n - 1];
      JoinDropped(init);
      var r := DropTrailingEmpty(init);
      assert DropTrailingEmpty(fields) == r;
      assert Join(fields) == Join(init) + ":";
      if r != [] {
        assert Separators(|init| - |r|) + ":" == Separators(n - |r|);
      } else {
        assert Separators(|init| - 1) + ":" == Separators(n - 1);
      }
    }
  }

  // ---------------------------------------------------------------------------
  // Reading an entry
  // ---------------------------------------------------------------------------

  /**
   * The body of the loop in the member's `setUpParties`: split the entry, parse
   * fields 0 and 2 as the id and the port, and take field 1 as the host unless the
   * member runs in the emulator. `None` where Java throws (a missing field or a
   * number that does not parse).
   */
  function ParseEntry(entry: string, isEmulator: bool): (r: Option<Party>)
    ensures r.Some? ==> |Split(entry)| >= 3
    ensures r.Some? ==> (Some(r.value.partyId) == ParseInt(Split(entry)[0])
                         && Some(r.value.port) == ParseInt(Split(entry)[2]))
    ensures r.Some? ==> r.value.hostname == if isEmulator then EmulatorHostIpAddress else Split(entry)[1]
    ensures |Split(entry)| < 3 ==> r.None?
  {
    var data := Split(entry);
    if |data| < 3 then None
    else
      var id := ParseInt(data[0]);
      var port := ParseInt(data[2]);
      if id.None? || port.None? then None
      else Some(Party(id.value, if isEmulator then EmulatorHostIpAddress else data[1], port.value))
  }

  // ---------------------------------------------------------------------------
  // Whole tables
  // ---------------------------------------------------------------------------

  /** The host's table for parties 1..n: entry i describes party i + 1. */
  function ConnectionTable(parties: map<int, Party>, n: nat): (t: seq<string>)
    requires forall id :: 1 <= id <= n ==> id in parties
    ensures |t| == n
  {
    seq(n, i requires 0 <= i < n => FormatEntry(parties[i + 1]))
  }

  /**
   * What the member's party map is after reading all entries in order: each entry
   * puts its party under its id, a later entry replacing an earlier one with the
   * same id. `None` when some entry does not parse.
   */
  function ParseTable(entries: seq<string>, isEmulator: bool): (r: Option<map<int, Party>>)
    ensures r.Some? ==> forall id :: id in r.value ==> r.value[id].partyId == id
  {
    if entries == [] then Some(map[])
    else
      var prefix := ParseTable(entries[..|entries| - 1], isEmulator);
      var last := ParseEntry(entries[|entries| - 1], isEmulator);
      if prefix.None? || last.None? then None
      else Some(prefix.value[last.value.partyId := last.value])
  }

  /** The party table a host builds: parties 1..n, each stored under its own id, with no ':' in a host name. */
  ghost predicate WellFormedParties(parties: map<int, Party>, n: nat) {
    && (forall id :: id in parties <==> 1 <= id <= n)
    && (forall id :: id in parties ==> parties[id].partyId == id)
    && (forall id :: id in parties ==> ':' !in parties[id].hostname)
    && (forall id :: id in parties ==> IsInt32(id) && IsInt32(parties[id].port))
  }

  // ---------------------------------------------------------------------------
  // Properties
  // ---------------------------------------------------------------------------

  /** A string without ':' is one field. */
  lemma {:induction false} FieldsNoSeparator(a: string)
    requires ':' !in a
    ensures Fields(a) == [a]
  {
    if a != [] {
      assert a[0] in a;
      assert forall c :: c in a[1..] ==> c in a;
      FieldsNoSeparator(a[1..]);
      assert [a[0]] + a[1..] == a;
    }
  }

  /** The fields of two strings joined by a ':' are the fields of the first followed by those of the second. */
  lemma {:induction false} FieldsAppend(a: string, b: string)
    ensures Fields(a + ":" + b) == Fields(a) + Fields(b)
    decreases |a|
  {
    if a == [] {
      assert a + ":" + b == [':'] + b;
      FieldsConsSeparator(b);
    } else {
      FieldsAppend(a[1..], b);
      FieldsConsAppend(a[0], a[1..] + ":" + b, a[1..], Fields(b));
      assert a + ":" + b == [a[0]] + (a[1..] + ":" + b);
      assert [a[0]] + a[1..] == a;
    }
  }

  /** Whatever fields `x` has after those of `y`, it still has after a common first character. */
  lemma {:induction false} FieldsConsAppend(c: char, x: string, y: string, more: seq<string>)
    requires Fields(x) == Fields(y) + more
    ensures Fields([c] + x) == Fields([c] + y) + more
  {
    if c == ':' {
      FieldsConsSeparator(x);
      FieldsConsSeparator(y);
    } else {
      FieldsConsChar(c, x);
      FieldsConsChar(c, y);
      ExtendFirstField([c], Fields(y), more);
    }
  }

  /** A leading ':' ends an empty first field. */
  lemma {:induction false} FieldsConsSeparator(t: string)
    ensures Fields([':'] + t) == [""] + Fields(t)
  {
    assert ([':'] + t)[1..] == t;
  }

  /** Any other leading character starts the first field. */
  lemma {:induction false} FieldsConsChar(c: char, t: string)
    requires c != ':'
    ensures Fields([c] + t) == [[c] + Fields(t)[0]] + Fields(t)[1..]
  {
    assert ([c] + t)[1..] == t;
  }

  /** Prefixing the first field commutes with appending further fields. */
  lemma {:induction false} ExtendFirstField(p: string, f: seq<string>, more: seq<string>)
    requires |f| >= 1
    ensures [p + (f + more)[0]] + (f + more)[1..] == ([p + f[0]] + f[1..]) + more
  {
    assert (f + more)[0] == f[0];
    assert (f + more)[1..] == f[1..] + more;
  }

  /** Splitting at every ':' and joining again gives the string back. */
  lemma {:induction false} JoinFields(s: string)
    ensures Join(Fields(s)) == s
  {
    if s != [] {
      JoinFields(s[1..]);
      if s[0] == ':' {
        JoinEmptyFirst(Fields(s[1..]));
      } else {
        JoinFirst(Fields(s[1..]), s[0]);
      }
      assert [s[0]] + s[1..] == s;
    }
  }

  /** `Join` seen from the front: prepending a character to the first field prepends it to the joined string. */
  lemma {:induction false} JoinFirst(fields: seq<string>, c: char)
    requires |fields| >= 1
    ensures Join([[c] + fields[0]] + fields[1..]) == [c] + Join(fields)
  {
    var f := [[c] + fields[0]] + fields[1..];
    if |fields| > 1 {
      var init := fields[..|fields| - 1];
      JoinFirst(init, c);
      assert f[..|f| - 1] == [[c] + init[0]] + init[1..];
      assert f[|f| - 1] == fields[|fields| - 1];
      calc {
        Join(f);
        Join(f[..|f| - 1]) + ":" + f[|f| - 1];
        [c] + Join(init) + ":" + fields[|fields| - 1];
        [c] + Join(fields);
      }
    }
  }

  /** `Join` seen from the front: an empty first field prepends a separator to the joined string. */
  lemma {:induction false} JoinEmptyFirst(fields: seq<string>)
    requires |fields| >= 1
    ensures Join([""] + fields) == ":" + Join(fields)
  {
    var f := [""] + fields;
    if |fields| > 1 {
      var init := fields[..|fields| - 1];
      JoinEmptyFirst(init);
      assert f[..|f| - 1] == [""] + init;
      calc {
        Join(f);
        Join(f[..|f| - 1]) + ":" + f[|f| - 1];
        ":" + Join(init) + ":" + fields[|fields| - 1];
        ":" + Join(fields);
      }
    } else {
      assert f[..1] == [""];
    }
  }

  /**
   * Round trip of one entry: the member reads back the party the host wrote,
   * with the host replaced by the emulator address when `isEmulator` is set.
   */
  lemma {:induction false} ParseFormatEntry(p: Party, isEmulator: bool)
    requires ':' !in p.hostname && IsInt32(p.partyId) && IsInt32(p.port)
    ensures ParseEntry(FormatEntry(p), isEmulator)
            == Some(if isEmulator then p.(hostname := EmulatorHostIpAddress) else p)
  {
    ParseIntToString(p.partyId);
    ParseIntToString(p.port);
  }

  /**
   * A host name holding a ':' (a textual IPv6 address, say) does not survive the
   * round trip: the member keeps the text before the first ':' as the host and
   * reads the text up to the next ':' as the port, so the entry reads only when
   * that group parses as an `int`, and then with the wrong host and port.
   */
  lemma {:induction false} HostWithSeparator(id: int, a: string, rest: string, port: int)
    requires ':' !in a && IsInt32(id)
    ensures var group := Fields(rest)[0];
            ParseEntry(FormatEntry(Party(id, a + ":" + rest, port)), false)
            == if ParseInt(group).Some? then Some(Party(id, a, ParseInt(group).value)) else None
  {
    var e := FormatEntry(Party(id, a + ":" + rest, port));
    SplitHostWithSeparator(id, a, rest, port);
    var data := Split(e);
    assert |data| >= 3 && data[1] == a && data[2] == Fields(rest)[0];
    ParseIntToString(id);
    assert ParseInt(data[0]) == Some(id);
  }

  /** The entry of a host name `a:rest` splits into the id, `a`, the fields of `rest` and the port. */
  lemma {:induction false} SplitHostWithSeparator(id: int, a: string, rest: string, port: int)
    requires ':' !in a
    ensures Split(FormatEntry(Party(id, a + ":" + rest, port)))
            == [IntToString(id), a] + Fields(rest) + [IntToString(port)]
  {
    FieldsLeadingGroup(a, rest);
    SplitKeepsAll(FormatEntry(Party(id, a + ":" + rest, port)));
  }

  /** A ':'-free group before the first ':' is the first field. */
  lemma {:induction false} FieldsLeadingGroup(a: string, rest: string)
    requires ':' !in a
    ensures Fields(a + ":" + rest) == [a] + Fields(rest)
  {
    FieldsNoSeparator(a);
    FieldsAppend(a, rest);
  }

  /** A ':'-free group after the last ':' is the last field. */
  lemma {:induction false} FieldsTrailingGroup(s: string, b: string)
    requires ':' !in b
    ensures Fields(s + ":" + b) == Fields(s) + [b]
  {
    FieldsNoSeparator(b);
    FieldsAppend(s, b);
  }

  /**
   * The entry of a host name whose second ':'-separated group starts with
   * neither a digit nor a sign does not read at all, whatever its id and port:
   * "2001:db8::1" is such a host, its port field being "db8".
   */
  lemma {:induction false} HostGroupNotNumber(id: int, a: string, rest: string, port: int)
    requires ':' !in a && IsInt32(id)
    requires rest != [] && rest[0] != ':' && rest[0] != '-' && rest[0] != '+' && !IsDigit(rest[0])
    ensures ParseEntry(FormatEntry(Party(id, a + ":" + rest, port)), false) == None
  {
    HostWithSeparator(id, a, rest, port);
    var group := Fields(rest)[0];
    assert group == [rest[0]] + Fields(rest[1..])[0];
    assert !IsDigit(group[0]);
  }

  /**
   * Round trip of the whole table: reading the host's table for a well-formed
   * party map gives back that map (with the emulator address in every host when
   * `isEmulator` is set).
   */
  lemma {:induction false} ParseConnectionTable(parties: map<int, Party>, n: nat, isEmulator: bool)
    requires WellFormedParties(parties, n)
    ensures ParseTable(ConnectionTable(parties, n), isEmulator) == Some(Rehost(parties, isEmulator))
  {
    var table := ConnectionTable(parties, n);
    var expected := Rehost(parties, isEmulator);
    EveryEntryParses(parties, n, isEmulator);
    ParseTableReads(table, isEmulator, expected);
    var r := ParseTable(table, isEmulator).value;
    forall id ensures id in r <==> id in expected {
    }
    assert r == expected;
  }

  /** Each entry of the host's table reads back as its re-hosted party. */
  lemma {:induction false} EveryEntryParses(parties: map<int, Party>, n: nat, isEmulator: bool)
    requires WellFormedParties(parties, n)
    ensures forall id :: 1 <= id <= n ==> id in Rehost(parties, isEmulator) && Rehost(parties, isEmulator)[id].partyId == id
    ensures forall i :: 0 <= i < n ==>
              ParseEntry(ConnectionTable(parties, n)[i], isEmulator) == Some(Rehost(parties, isEmulator)[i + 1])
  {
    forall i | 0 <= i < n
      ensures ParseEntry(ConnectionTable(parties, n)[i], isEmulator) == Some(Rehost(parties, isEmulator)[i + 1])
    {
      assert ConnectionTable(parties, n)[i] == FormatEntry(parties[i + 1]);
      ParseFormatEntry(parties[i + 1], isEmulator);
    }
  }

  /** The map a member ends with: the host's map, re-hosted in the emulator. */
  function Rehost(parties: map<int, Party>, isEmulator: bool): (r: map<int, Party>)
    ensures r.Keys == parties.Keys
    ensures forall id :: id in r ==> r[id].partyId == parties[id].partyId && r[id].port == parties[id].port
  {
    map id | id in parties :: if isEmulator then parties[id].(hostname := EmulatorHostIpAddress) else parties[id]
  }

  /** When entry i reads as the party `expected[i + 1]`, the entries give parties 1..|entries|. */
  lemma {:induction false} ParseTableReads(entries: seq<string>, isEmulator: bool, expected: map<int, Party>)
    requires forall id :: 1 <= id <= |entries| ==> id in expected && expected[id].partyId == id
    requires forall i :: 0 <= i < |entries| ==> ParseEntry(entries[i], isEmulator) == Some(expected[i + 1])
    ensures ParseTable(entries, isEmulator).Some?
    ensures forall id :: id in ParseTable(entries, isEmulator).value <==> 1 <= id <= |entries|
    ensures forall id :: 1 <= id <= |entries| ==> ParseTable(entries, isEmulator).value[id] == expected[id]
  {
    if entries != [] {
      var k := |entries|;
      var front := entries[..k - 1];
      assert forall i :: 0 <= i < |front| ==> front[i] == entries[i];
      ParseTableReads(front, isEmulator, expected);
      var prev := ParseTable(front, isEmulator).value;
      ParseTableStep(entries, isEmulator, prev, expected[k]);
      PutNext(prev, k, expected, prev[k := expected[k]]);
    }
  }

  /** An entry that does not read makes the whole table fail to read, whatever follows it. */
  lemma {:induction false} ParseTableFailsAt(entries: seq<string>, isEmulator: bool, i: nat)
    requires i < |entries| && ParseEntry(entries[i], isEmulator).None?
    ensures ParseTable(entries, isEmulator).None?
  {
    var k := |entries|;
    var front := entries[..k - 1];
    if i < k - 1 {
      assert front[i] == entries[i];
      ParseTableFailsAt(front, isEmulator, i);
      ParseTableStepFails(entries, isEmulator);
    } else {
      assert i == k - 1;
      ParseTableStepFails(entries, isEmulator);
    }
  }

  /** A table whose front or last entry does not read does not read. */
  lemma {:induction false} ParseTableStepFails(entries: seq<string>, isEmulator: bool)
    requires entries != []
    requires ParseTable(entries[..|entries| - 1], isEmulator).None? || ParseEntry(entries[|entries| - 1], isEmulator).None?
    ensures ParseTable(entries, isEmulator).None?
  {
  }

  /** Reading one more entry puts its party into the map read so far. */
  lemma {:induction false} ParseTableStep(entries: seq<string>, isEmulator: bool, prev: map<int, Party>, p: Party)
    requires entries != []
    requires ParseTable(entries[..|entries| - 1], isEmulator) == Some(prev)
    requires ParseEntry(entries[|entries| - 1], isEmulator) == Some(p)
    ensures ParseTable(entries, isEmulator) == Some(prev[p.partyId := p])
  {
  }

  /** Reading entry i after the first i entries puts its party into the map read so far. */
  lemma {:induction false} ParseTableNext(entries: seq<string>, isEmulator: bool, i: nat, prev: map<int, Party>, p: Party)
    requires i < |entries|
    requires ParseTable(entries[..i], isEmulator) == Some(prev)
    requires ParseEntry(entries[i], isEmulator) == Some(p)
    ensures ParseTable(entries[..i + 1], isEmulator) == Some(prev[p.partyId := p])
  {
    var front := entries[..i + 1];
    assert |front| == i + 1;
    assert front[..|front| - 1] == entries[..i];
    assert front[|front| - 1] == entries[i];
    ParseTableStep(front, isEmulator, prev, p);
  }

  /** Putting party k into a map holding the expected parties 1..k - 1 gives the expected parties 1..k. */
  lemma {:induction false} PutNext(m: map<int, Party>, k: int, expected: map<int, Party>, m': map<int, Party>)
    requires k >= 1 && k in expected && expected[k].partyId == k
    requires forall id :: id in m <==> 1 <= id <= k - 1
    requires forall id :: 1 <= id <= k - 1 ==> id in expected && m[id] == expected[id]
    requires m' == m[k := expected[k]]
    ensures forall id :: id in m' <==> 1 <= id <= k
    ensures forall id :: 1 <= id <= k ==> m'[id] == expected[id]
  {
  }
}
