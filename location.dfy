/**
 * The string rules of `LocationProcessor` (`getLocation.js`): the
 * geocoding query built from a park's name and address, the CSV export of
 * the park table with its field quoting, and the geocoding statistics.
 */
module Location {
  import opened Wrappers
  import opened Seqs

  // ---------------------------------------------------------------------
  // Whitespace and trimming
  // ---------------------------------------------------------------------

  /** The characters JavaScript's `\s` and `String.prototype.trim` treat as whitespace. */
  predicate IsSpace(c: char)
  {
    c == '\t' || c == '\n' || c == '\U{B}' || c == '\U{C}' || c == '\r' || c == ' ' ||
    c == '\U{A0}' || c == '\U{1680}' || ('\U{2000}' <= c <= '\U{200A}') ||
    c == '\U{2028}' || c == '\U{2029}' || c == '\U{202F}' || c == '\U{205F}' ||
    c == '\U{3000}' || c == '\U{FEFF}'
  }

  predicate NoSpace(s: string) { forall i :: 0 <= i < |s| ==> !IsSpace(s[i]) }

  predicate Blank(s: string) { forall i :: 0 <= i < |s| ==> IsSpace(s[i]) }

  /** Drops the leading whitespace. */
  function TrimStart(s: string): (r: string)
    ensures |r| <= |s|
    ensures r == [] || !IsSpace(r[0])
    ensures s != [] && IsSpace(s[0]) ==> |r| < |s|
    decreases |s|
  {
    if s != [] && IsSpace(s[0]) then TrimStart(s[1..]) else s
  }

  /** What trimming the start removes is whitespace, and what it leaves is a suffix. */
  lemma {:induction false} TrimStartSuffix(s: string)
    ensures TrimStart(s) == s[|s| - |TrimStart(s)|..]
    ensures Blank(s[..|s| - |TrimStart(s)|])
    decreases |s|
  {
    if s != [] && IsSpace(s[0]) {
      var k := |s| - |TrimStart(s)|;
      TrimStartSuffix(s[1..]);
      assert s[1..][k - 1..] == s[k..];
      assert s[..k] == [s[0]] + s[1..][..k - 1];
    }
  }

  /** Drops the trailing whitespace. */
  function TrimEnd(s: string): (r: string)
    ensures |r| <= |s|
    ensures r == [] || !IsSpace(r[|r| - 1])
    decreases |s|
  {
    if s != [] && IsSpace(s[|s| - 1]) then TrimEnd(s[..|s| - 1]) else s
  }

  /** What trimming the end leaves is a prefix. */
  lemma {:induction false} TrimEndPrefix(s: string)
    ensures TrimEnd(s) == s[..|TrimEnd(s)|]
    ensures Blank(s[|TrimEnd(s)|..])
    decreases |s|
  {
    if s != [] && IsSpace(s[|s| - 1]) {
      var init := s[..|s| - 1];
      TrimEndPrefix(init);
      var k := |TrimEnd(s)|;
      assert init[..k] == s[..k];
      assert s[k..] == init[k..] + [s[|s| - 1]];
    }
  }

  /** `trim()`: empty exactly for a blank string, otherwise bounded by non-spaces. */
  function Trim(s: string): (r: string)
    ensures r == [] <==> Blank(s)
    ensures r != [] ==> !IsSpace(r[0]) && !IsSpace(r[|r| - 1])
  {
    var t := TrimStart(s);
    var r := TrimEnd(t);
    TrimStartSuffix(s);
    TrimEndPrefix(t);
    assert r == [] ==> Blank(s) by {
      if r == [] {
        assert s == s[..|s| - |t|] + t;
      }
    }
    assert r != [] ==> r[0] == t[0] && t[0] == s[|s| - |t|];
    r
  }

  // ---------------------------------------------------------------------
  // Words, and joining with a separator
  // ---------------------------------------------------------------------

  /** The length of the leading run of non-space characters. */
  function WordLength(s: string): (n: nat)
    ensures n <= |s|
    ensures s != [] && !IsSpace(s[0]) ==> n > 0
    ensures n == |s| || IsSpace(s[n])
  {
    if s == [] || IsSpace(s[0]) then 0 else 1 + WordLength(s[1..])
  }

  /** The words of a string: its maximal runs of non-space characters, in order. */
  function Words(s: string): seq<string>
    decreases |s|
  {
    if s == [] then []
    else if IsSpace(s[0]) then Words(TrimStart(s))
    else
      var n := WordLength(s);
      [s[..n]] + Words(s[n..])
  }

  /** A leading word holds no whitespace. */
  lemma {:induction false} WordLengthNoSpace(s: string)
    ensures NoSpace(s[..WordLength(s)])
    decreases |s|
  {
    if s != [] && !IsSpace(s[0]) {
      WordLengthNoSpace(s[1..]);
      assert s[..WordLength(s)] == [s[0]] + s[1..][..WordLength(s[1..])];
    }
  }

  /** Every word is non-empty and holds no whitespace. */
  lemma {:induction false} WordsShape(s: string)
    ensures forall k :: 0 <= k < |Words(s)| ==> Words(s)[k] != [] && NoSpace(Words(s)[k])
    decreases |s|
  {
    if s != [] {
      if IsSpace(s[0]) {
        WordsShape(TrimStart(s));
      } else {
        WordLengthNoSpace(s);
        WordsShape(s[WordLength(s)..]);
      }
    }
  }

  /** `parts.join(sep)`. */
  function Join(parts: seq<string>, sep: string): string
  {
    if parts == [] then ""
    else if |parts| == 1 then parts[0]
    else parts[0] + sep + Join(parts[1..], sep)
  }

  /** Joining two non-empty lists puts one separator between their joins. */
  lemma {:induction false} JoinAppend(a: seq<string>, b: seq<string>, sep: string)
    requires a != [] && b != []
    ensures Join(a + b, sep) == Join(a, sep) + sep + Join(b, sep)
    decreases |a|
  {
    if |a| == 1 {
      assert (a + b)[1..] == b;
    } else {
      assert (a + b)[1..] == a[1..] + b;
      JoinAppend(a[1..], b, sep);
    }
  }

  /** Parts without whitespace joined by a separator without whitespace have none. */
  lemma {:induction false} JoinNoSpace(parts: seq<string>, sep: string)
    requires NoSpace(sep)
    requires forall k :: 0 <= k < |parts| ==> NoSpace(parts[k])
    ensures NoSpace(Join(parts, sep))
    decreases |parts|
  {
    if |parts| > 1 {
      JoinNoSpace(parts[1..], sep);
    }
  }

  /** The word lists of several strings, one after the other. */
  function Concat(wss: seq<seq<string>>): seq<string>
  {
    if wss == [] then [] else Concat(wss[..|wss| - 1]) + wss[|wss| - 1]
  }

  // ---------------------------------------------------------------------
  // formatQuery
  // ---------------------------------------------------------------------

  /**
   * `replace(/\s+/g, '+')`: every run of whitespace becomes one `+`, and
   * the text between runs is copied.
   */
  function CollapseSpaces(s: string): (r: string)
    ensures s != [] ==> r != []
    decreases |s|
  {
    if s == [] then []
    else if IsSpace(s[0]) then "+" + CollapseSpaces(TrimStart(s))
    else
      var n := WordLength(s);
      s[..n] + CollapseSpaces(s[n..])
  }

  /** Collapsing leaves no whitespace. */
  lemma {:induction false} CollapseNoSpace(s: string)
    ensures NoSpace(CollapseSpaces(s))
    decreases |s|
  {
    if s != [] {
      if IsSpace(s[0]) {
        CollapseNoSpace(TrimStart(s));
      } else {
        WordLengthNoSpace(s);
        CollapseNoSpace(s[WordLength(s)..]);
      }
    }
  }

  /** `part && part.trim()`: a part is kept when it is not blank. */
  predicate Kept(part: string) { !Blank(part) }

  /** A kept part as it enters the query. */
  function FormatPart(part: string): string { CollapseSpaces(Trim(part)) }

  /**
   * `formatQuery`: the non-blank parts among park name, city, state and
   * country, trimmed, with inner whitespace runs turned into `+`, joined by
   * `+`. The query has no whitespace, and it is empty exactly when all four
   * parts are blank.
   */
  function FormatQuery(parkName: string, city: string, state: string, country: string): (q: string)
    ensures NoSpace(q)
    ensures q == [] <==> Blank(parkName) && Blank(city) && Blank(state) && Blank(country)
  {
    var parts := [parkName, city, state, country];
    QueryShape(parts);
    assert Filter(parts, Kept) == [] <==> Blank(parkName) && Blank(city) && Blank(state) && Blank(country) by {
      var kept := Filter(parts, Kept);
      if kept != [] {
        assert kept[0] in parts;
      } else {
        assert parkName in parts && city in parts && state in parts && country in parts;
      }
    }
    Query(parts)
  }

  /** The parts kept, formatted and joined by `+`. */
  function Query(parts: seq<string>): string
  {
    Join(MapSeq(Filter(parts, Kept), FormatPart), "+")
  }

  /** A query has no whitespace, and is empty exactly when no part is kept. */
  lemma QueryShape(parts: seq<string>)
    ensures NoSpace(Query(parts))
    ensures Query(parts) == [] <==> Filter(parts, Kept) == []
  {
    var kept := Filter(parts, Kept);
    var formatted := MapSeq(kept, FormatPart);
    assert forall k :: 0 <= k < |formatted| ==> NoSpace(formatted[k]) by {
      forall k | 0 <= k < |formatted| ensures NoSpace(formatted[k]) {
        CollapseNoSpace(Trim(kept[k]));
      }
    }
    JoinNoSpace(formatted, "+");
    assert kept != [] ==> formatted[0] != [];
  }

  /** Leading whitespace carries no word. */
  lemma TrimStartWords(s: string)
    ensures Words(TrimStart(s)) == Words(s)
  {
  }

  /** A trailing space does not end the leading word any sooner. */
  lemma {:induction false} WordLengthSnocSpace(s: string, c: char)
    requires IsSpace(c)
    ensures WordLength(s + [c]) == WordLength(s)
    decreases |s|
  {
    if s != [] && !IsSpace(s[0]) {
      assert (s + [c])[1..] == s[1..] + [c];
      WordLengthSnocSpace(s[1..], c);
    }
  }

  /** Trimming the start of a string with a space appended appends the space to the trim. */
  lemma {:induction false} TrimStartSnoc(s: string, c: char)
    requires IsSpace(c)
    ensures TrimStart(s + [c]) == if TrimStart(s) == [] then [] else TrimStart(s) + [c]
    decreases |s|
  {
    if s != [] && IsSpace(s[0]) {
      assert (s + [c])[1..] == s[1..] + [c];
      TrimStartSnoc(s[1..], c);
    } else if s == [] {
      assert (s + [c])[1..] == [];
    }
  }

  /** A trailing space adds no word. */
  lemma {:induction false} WordsSnocSpace(s: string, c: char)
    requires IsSpace(c)
    ensures Words(s + [c]) == Words(s)
    decreases |s|
  {
    var t := s + [c];
    if s == [] {
      assert t[1..] == [];
      assert TrimStart(t) == [];
    } else if IsSpace(s[0]) {
      TrimStartSnoc(s, c);
      if TrimStart(s) != [] {
        WordsSnocSpace(TrimStart(s), c);
      }
    } else {
      var n := WordLength(s);
      WordLengthSnocSpace(s, c);
      assert t[..n] == s[..n];
      assert t[n..] == s[n..] + [c];
      WordsSnocSpace(s[n..], c);
    }
  }

  /** Trailing whitespace carries no word. */
  lemma {:induction false} TrimEndWords(s: string)
    ensures Words(TrimEnd(s)) == Words(s)
    decreases |s|
  {
    if s != [] && IsSpace(s[|s| - 1]) {
      var init := s[..|s| - 1];
      assert s == init + [s[|s| - 1]];
      WordsSnocSpace(init, s[|s| - 1]);
      TrimEndWords(init);
    }
  }

  /** A blank string has no word, and a string with no word is blank. */
  lemma BlankWords(s: string)
    ensures Blank(s) <==> Words(s) == []
  {
    TrimStartSuffix(s);
    var t := TrimStart(s);
    if s != [] && !IsSpace(s[0]) {
      assert Words(s) != [];
    } else if t != [] {
      assert Words(t) != [];
      assert t[0] == s[|s| - |t|];
    } else {
      assert s[..|s|] == s;
    }
  }

  /** A string ending in a non-space keeps that last character when its start is trimmed. */
  lemma TrimStartLast(s: string)
    requires s != [] && !IsSpace(s[|s| - 1])
    ensures TrimStart(s) != [] && TrimStart(s)[|TrimStart(s)| - 1] == s[|s| - 1]
  {
    TrimStartSuffix(s);
  }

  /** After the leading word come whitespace and then the remaining words. */
  lemma WordsAfterWord(s: string)
    requires s != [] && !IsSpace(s[0]) && WordLength(s) < |s|
    ensures Words(s) == [s[..WordLength(s)]] + Words(TrimStart(s[WordLength(s)..]))
  {
    var rest := s[WordLength(s)..];
    assert IsSpace(rest[0]);
  }

  /** After the leading word, the whitespace collapses to one `+`. */
  lemma CollapseAfterWord(s: string)
    requires s != [] && !IsSpace(s[0]) && WordLength(s) < |s|
    ensures CollapseSpaces(s) == s[..WordLength(s)] + "+" + CollapseSpaces(TrimStart(s[WordLength(s)..]))
  {
    var rest := s[WordLength(s)..];
    assert IsSpace(rest[0]);
  }

  /**
   * A string that starts and ends with a non-space collapses to its words
   * joined by `+`.
   */
  lemma {:induction false} CollapseTrimmed(s: string)
    requires s != [] && !IsSpace(s[0]) && !IsSpace(s[|s| - 1])
    ensures Words(s) != []
    ensures CollapseSpaces(s) == Join(Words(s), "+")
    decreases |s|
  {
    var n := WordLength(s);
    if n == |s| {
      assert s[..n] == s && s[n..] == [];
    } else {
      var rest := s[n..];
      assert rest[|rest| - 1] == s[|s| - 1];
      TrimStartLast(rest);
      var t := TrimStart(rest);
      CollapseTrimmed(t);
      WordsAfterWord(s);
      CollapseAfterWord(s);
      assert ([s[..n]] + Words(t))[1..] == Words(t);
    }
  }

  /**
   * A kept part enters the query as its words joined by `+`; a dropped
   * part has no word.
   */
  lemma FormatPartWords(part: string)
    ensures Kept(part) ==> Words(part) != [] && FormatPart(part) == Join(Words(part), "+")
    ensures !Kept(part) ==> Words(part) == []
  {
    TrimEndWords(TrimStart(part));
    if Kept(part) {
      CollapseTrimmed(Trim(part));
    } else {
      BlankWords(part);
    }
  }

  /** The word lists of a list of parts, one more part at a time. */
  lemma ConcatWordsStep(init: seq<string>, x: string)
    ensures Concat(MapSeq(init + [x], Words)) == Concat(MapSeq(init, Words)) + Words(x)
  {
    MapSeqStep(init, x, Words);
    var m := MapSeq(init + [x], Words);
    assert m[..|m| - 1] == MapSeq(init, Words);
  }

  /** A kept last part joins the earlier parts' query with its own words. */
  lemma FormatKeptStep(before: seq<string>, words: seq<string>, x: string)
    requires Kept(x)
    requires before == [] <==> words == []
    requires Join(before, "+") == Join(words, "+")
    ensures Join(before + [FormatPart(x)], "+") == Join(words + Words(x), "+")
  {
    FormatPartWords(x);
    if before != [] {
      JoinAppend(before, [FormatPart(x)], "+");
      JoinAppend(words, Words(x), "+");
    } else {
      assert before + [FormatPart(x)] == [FormatPart(x)];
      assert words + Words(x) == Words(x);
    }
  }

  /** The query of some parts and their words agree. */
  predicate QueryIsWords(parts: seq<string>)
  {
    (Filter(parts, Kept) == [] <==> Concat(MapSeq(parts, Words)) == []) &&
    Query(parts) == Join(Concat(MapSeq(parts, Words)), "+")
  }

  /** Adding one more part keeps the query and the words in agreement. */
  lemma FormatPartsStep(init: seq<string>, x: string)
    requires QueryIsWords(init)
    ensures QueryIsWords(init + [x])
  {
    var kept := Filter(init, Kept);
    var words := Concat(MapSeq(init, Words));
    FilterStep(init, x, Kept);
    ConcatWordsStep(init, x);
    FormatPartWords(x);
    if Kept(x) {
      MapSeqStep(kept, x, FormatPart);
      FormatKeptStep(MapSeq(kept, FormatPart), words, x);
    } else {
      assert Filter(init + [x], Kept) == kept;
      assert Concat(MapSeq(init + [x], Words)) == words;
    }
  }

  /** For any list of parts: the query is the words of all parts joined by `+`. */
  lemma {:induction false} FormatPartsWords(parts: seq<string>)
    ensures QueryIsWords(parts)
    decreases |parts|
  {
    if parts != [] {
      var init := parts[..|parts| - 1];
      assert parts == init + [parts[|parts| - 1]];
      FormatPartsWords(init);
      FormatPartsStep(init, parts[|parts| - 1]);
    }
  }

  /** Four word lists one after the other. */
  lemma ConcatFour(a: string, b: string, c: string, d: string, f: string -> seq<string>)
    ensures Concat(MapSeq([a, b, c, d], f)) == f(a) + f(b) + f(c) + f(d)
  {
    var m := [f(a), f(b), f(c), f(d)];
    assert MapSeq([a, b, c, d], f) == m;
    assert m[..3] == [f(a), f(b), f(c)];
    assert [f(a), f(b), f(c)][..2] == [f(a), f(b)];
    assert [f(a), f(b)][..1] == [f(a)];
    assert [f(a)][..0] == [];
    assert Concat([f(a)]) == f(a);
    assert Concat([f(a), f(b)]) == f(a) + f(b);
    assert Concat([f(a), f(b), f(c)]) == f(a) + f(b) + f(c);
  }

  /**
   * The query is the words of the park name, city, state and country, in
   * that order, joined by `+`: blank parts vanish, each part is trimmed,
   * and each inner whitespace run becomes a single `+`.
   */
  lemma FormatQueryWords(parkName: string, city: string, state: string, country: string)
    ensures FormatQuery(parkName, city, state, country) ==
      Join(Words(parkName) + Words(city) + Words(state) + Words(country), "+")
  {
    FormatPartsWords([parkName, city, state, country]);
    ConcatFour(parkName, city, state, country, Words);
  }

  // ---------------------------------------------------------------------
  // The park table and getStats
  // ---------------------------------------------------------------------

  /** A coordinate: its value and the text JavaScript writes for it. */
  datatype Coordinate = Coordinate(value: real, shown: string)

  /** One park record of `this.data`; a `null` coordinate is `None`. */
  datatype Park = Park(parkName: string, city: string, state: string, country: string,
                       longitude: Option<Coordinate>, latitude: Option<Coordinate>)

  /** An entry of `this.data`: the park id and its record, in key insertion order. */
  datatype ParkEntry = ParkEntry(parkId: string, park: Park)

  /** The park row a load step reads; an absent field is the empty string. */
  datatype ParkRow = ParkRow(parkName: string, name: string, city: string, state: string, country: string)

  /**
   * The record a load step stores for a park before geocoding: the name
   * falls back from `park_name` to `name` to empty, the country to `US`,
   * and both coordinates start `null`.
   */
  function NewPark(row: ParkRow): (p: Park)
    ensures p.parkName == (if row.parkName != "" then row.parkName else row.name)
    ensures p.country != ""
    ensures row.country == "" ==> p.country == "US"
    ensures p.longitude.None? && p.latitude.None?
  {
    Park(if row.parkName != "" then row.parkName else if row.name != "" then row.name else "",
      row.city, row.state, if row.country != "" then row.country else "US", None, None)
  }

  /** Whether the table has an entry for `parkId`. */
  predicate HasPark(data: seq<ParkEntry>, parkId: string)
  {
    exists j :: 0 <= j < |data| && data[j].parkId == parkId
  }

  /** No park id occurs twice, as for the keys of an object. */
  predicate DistinctKeys(data: seq<ParkEntry>)
  {
    forall i, j :: 0 <= i < j < |data| ==> data[i].parkId != data[j].parkId
  }

  /** The position of `parkId`'s entry, or the table's length when it has none. */
  function IndexOfPark(data: seq<ParkEntry>, parkId: string): (i: nat)
    ensures i <= |data|
    ensures i < |data| ==> data[i].parkId == parkId
    ensures forall j :: 0 <= j < i ==> data[j].parkId != parkId
  {
    if data == [] then 0
    else if data[0].parkId == parkId then 0
    else 1 + IndexOfPark(data[1..], parkId)
  }

  /**
   * `this.data[parkId] = park`: an existing key keeps its place and takes
   * the new record, a new key goes last; every other entry stays.
   */
  function SetPark(data: seq<ParkEntry>, parkId: string, park: Park): (r: seq<ParkEntry>)
    ensures HasPark(data, parkId) ==> |r| == |data|
    ensures !HasPark(data, parkId) ==> |r| == |data| + 1 && r[|data|] == ParkEntry(parkId, park)
    ensures ParkEntry(parkId, park) in r
    ensures forall j :: 0 <= j < |data| && data[j].parkId != parkId ==> r[j] == data[j]
  {
    var i := IndexOfPark(data, parkId);
    assert i < |data| <==> HasPark(data, parkId);
    if i < |data| then
      var r := data[i := ParkEntry(parkId, park)];
      assert r[i] == ParkEntry(parkId, park);
      r
    else data + [ParkEntry(parkId, park)]
  }

  /** Setting a park keeps the keys distinct and adds `parkId` to them, and only it. */
  lemma SetParkKeepsKeys(data: seq<ParkEntry>, parkId: string, park: Park)
    requires DistinctKeys(data)
    ensures DistinctKeys(SetPark(data, parkId, park))
    ensures forall id :: HasPark(SetPark(data, parkId, park), id) <==> id == parkId || HasPark(data, id)
  {
    var r := SetPark(data, parkId, park);
    var i := IndexOfPark(data, parkId);
    assert forall j :: 0 <= j < |data| ==> r[j].parkId == data[j].parkId;
    forall id | HasPark(r, id) ensures id == parkId || HasPark(data, id) {
      var j :| 0 <= j < |r| && r[j].parkId == id;
      if j < |data| {
        assert data[j].parkId == id;
      }
    }
    forall id | id == parkId || HasPark(data, id) ensures HasPark(r, id) {
      if id == parkId {
        var j :| 0 <= j < |r| && r[j] == ParkEntry(parkId, park);
      } else {
        var j :| 0 <= j < |data| && data[j].parkId == id;
        assert r[j].parkId == id;
      }
    }
  }

  /** `p.latitude && p.longitude`: `null` and 0 are falsy. */
  predicate Truthy(c: Option<Coordinate>) { c.Some? && c.value.value != 0.0 }

  predicate Geocoded(e: ParkEntry) { Truthy(e.park.latitude) && Truthy(e.park.longitude) }

  predicate NotGeocoded(e: ParkEntry) { !Geocoded(e) }

  /** What `getStats` returns. */
  datatype Stats = Stats(total: nat, geocoded: nat, failed: int, requestsMade: nat)

  /**
   * `getStats`: every park counts in the total; the geocoded ones have
   * truthy coordinates; `failed` is the rest, so it counts exactly the
   * parks that are not geocoded and is never negative.
   */
  function GetStats(data: seq<ParkEntry>, requestCount: nat): (s: Stats)
    ensures s.total == |data| && s.requestsMade == requestCount
    ensures s.geocoded <= s.total && s.failed == s.total - s.geocoded
    ensures s.failed == |Filter(data, NotGeocoded)|
  {
    var total := |data|;
    var geocoded := |Filter(data, Geocoded)|;
    FilterPartition(data);
    Stats(total, geocoded, total - geocoded, requestCount)
  }

  /** Every entry is geocoded or not: the two filters share out the table. */
  lemma {:induction false} FilterPartition(data: seq<ParkEntry>)
    ensures |Filter(data, Geocoded)| + |Filter(data, NotGeocoded)| == |data|
    decreases |data|
  {
    if data != [] {
      var init := data[..|data| - 1];
      assert data == init + [data[|data| - 1]];
      FilterStep(init, data[|data| - 1], Geocoded);
      FilterStep(init, data[|data| - 1], NotGeocoded);
      FilterPartition(init);
    }
  }

  /** Replacing one element changes a filter's length by what that element contributes. */
  lemma FilterUpdate<T(!new)>(s: seq<T>, i: nat, x: T, p: T -> bool)
    requires i < |s|
    ensures |Filter(s[i := x], p)| == |Filter(s, p)| - (if p(s[i]) then 1 else 0) + (if p(x) then 1 else 0)
  {
    assert s == s[..i] + [s[i]] + s[i + 1..];
    assert s[i := x] == s[..i] + [x] + s[i + 1..];
    FilterAppend(s[..i] + [s[i]], s[i + 1..], p);
    FilterAppend(s[..i] + [x], s[i + 1..], p);
    FilterStep(s[..i], s[i], p);
    FilterStep(s[..i], x, p);
  }

  /**
   * Storing the record of a freshly read park: it is not geocoded, so a new
   * park id adds one to the total and to `failed` of `getStats`, while an
   * existing one keeps the total and loses its place among the geocoded
   * parks if it had one. Its export row has both coordinates empty.
   */
  lemma NewParkStats(data: seq<ParkEntry>, parkId: string, row: ParkRow, requestCount: nat)
    ensures NotGeocoded(ParkEntry(parkId, NewPark(row)))
    ensures ParkFields(ParkEntry(parkId, NewPark(row)))[1..3] == [Text(""), Text("")]
    ensures var before := GetStats(data, requestCount);
      var after := GetStats(SetPark(data, parkId, NewPark(row)), requestCount);
      (!HasPark(data, parkId) ==>
        after.total == before.total + 1 && after.geocoded == before.geocoded && after.failed == before.failed + 1) &&
      (HasPark(data, parkId) ==>
        after.total == before.total &&
        after.geocoded == before.geocoded - (if Geocoded(data[IndexOfPark(data, parkId)]) then 1 else 0))
  {
    if HasPark(data, parkId) {
      NewParkReplaces(data, parkId, row, requestCount);
    } else {
      NewParkAdds(data, parkId, row, requestCount);
    }
  }

  /** A new park id: one more park, and it is among the failed ones. */
  lemma NewParkAdds(data: seq<ParkEntry>, parkId: string, row: ParkRow, requestCount: nat)
    requires !HasPark(data, parkId)
    ensures var before := GetStats(data, requestCount);
      var after := GetStats(SetPark(data, parkId, NewPark(row)), requestCount);
      after.total == before.total + 1 && after.geocoded == before.geocoded && after.failed == before.failed + 1
  {
    var e := ParkEntry(parkId, NewPark(row));
    var r := SetPark(data, parkId, NewPark(row));
    assert r == data + [e];
    FilterStep(data, e, Geocoded);
    assert |Filter(r, Geocoded)| == |Filter(data, Geocoded)|;
  }

  /** An existing park id: as many parks, and one geocoded park fewer if it was geocoded. */
  lemma NewParkReplaces(data: seq<ParkEntry>, parkId: string, row: ParkRow, requestCount: nat)
    requires HasPark(data, parkId)
    ensures var before := GetStats(data, requestCount);
      var after := GetStats(SetPark(data, parkId, NewPark(row)), requestCount);
      after.total == before.total &&
      after.geocoded == before.geocoded - (if Geocoded(data[IndexOfPark(data, parkId)]) then 1 else 0)
  {
    var e := ParkEntry(parkId, NewPark(row));
    var r := SetPark(data, parkId, NewPark(row));
    var i := IndexOfPark(data, parkId);
    assert r == data[i := e];
    FilterUpdate(data, i, e, Geocoded);
  }

  // ---------------------------------------------------------------------
  // CSV export and field quoting
  // ---------------------------------------------------------------------

  /** A CSV field: a string, or a number written as its JavaScript text. */
  datatype Field = Text(text: string) | Number(shown: string)

  function FieldText(f: Field): string
  {
    match f
    case Text(t) => t
    case Number(s) => s
  }

  /** A field needs quoting when it contains a comma, a double quote or a newline. */
  predicate NeedsQuoting(s: string) { ',' in s || '"' in s || '\n' in s }

  /** `replace(/"/g, '""')`. */
  function DoubleQuotes(s: string): string
  {
    if s == [] then []
    else (if s[0] == '"' then "\"\"" else [s[0]]) + DoubleQuotes(s[1..])
  }

  /**
   * The quoting rule: a string field that needs it is wrapped in double
   * quotes with its own quotes doubled; every other field is written as is.
   */
  function QuoteField(f: Field): (r: string)
    ensures f.Text? && NeedsQuoting(f.text) ==> |r| >= 2 && r[0] == '"' && r[|r| - 1] == '"'
    ensures !(f.Text? && NeedsQuoting(f.text)) ==> r == FieldText(f)
  {
    match f
    case Text(t) => if NeedsQuoting(t) then "\"" + DoubleQuotes(t) + "\"" else t
    case Number(s) => s
  }

  /** A row: its quoted fields joined by commas. */
  function FormatRow(row: seq<Field>): string
  {
    Join(MapSeq(row, QuoteField), ",")
  }

  /** The CSV text: the rows joined by newlines. */
  function FormatCsv(rows: seq<seq<Field>>): string
  {
    Join(MapSeq(rows, FormatRow), "\n")
  }

  /** A field read back: its text and the input after it. */
  datatype Parsed = Parsed(value: string, rest: string)

  /** A row read back: its fields and the input after it. */
  datatype ParsedRow = ParsedRow(fields: seq<string>, rest: string)

  /**
   * Reads the inside of a quoted field, just after its opening quote: `""`
   * stands for one quote and a single quote closes the field.
   */
  function UnquoteBody(s: string): (p: Parsed)
    ensures |p.rest| <= |s|
  {
    if s == [] then Parsed([], [])
    else if s[0] == '"' then
      if |s| >= 2 && s[1] == '"' then
        var p := UnquoteBody(s[2..]);
        Parsed(['"'] + p.value, p.rest)
      else Parsed([], s[1..])
    else
      var p := UnquoteBody(s[1..]);
      Parsed([s[0]] + p.value, p.rest)
  }

  /** The length of an unquoted field: up to the next comma or newline. */
  function PlainLength(s: string): (n: nat)
    ensures n <= |s|
  {
    if s == [] || s[0] == ',' || s[0] == '\n' then 0 else 1 + PlainLength(s[1..])
  }

  /** Reads one field, quoted or not. */
  function ParseField(s: string): (p: Parsed)
    ensures |p.rest| <= |s|
  {
    if s != [] && s[0] == '"' then UnquoteBody(s[1..])
    else
      var n := PlainLength(s);
      Parsed(s[..n], s[n..])
  }

  /** Reads the comma-separated fields of one line. */
  function ParseRow(s: string): (r: ParsedRow)
    ensures |r.rest| <= |s|
    decreases |s|
  {
    var f := ParseField(s);
    if f.rest != [] && f.rest[0] == ',' then
      var r := ParseRow(f.rest[1..]);
      ParsedRow([f.value] + r.fields, r.rest)
    else ParsedRow([f.value], f.rest)
  }

  /** Reads newline-separated lines of fields; a newline inside quotes belongs to its field. */
  function ParseCsv(s: string): seq<seq<string>>
    decreases |s|
  {
    var r := ParseRow(s);
    if r.rest != [] && r.rest[0] == '\n' then [r.fields] + ParseCsv(r.rest[1..]) else [r.fields]
  }

  /** The input after a field: the end, or a separator. */
  predicate AtSeparator(t: string) { t == [] || t[0] == ',' || t[0] == '\n' }

  /** A field the reader gets back: any string, or a number text with nothing to quote. */
  predicate Safe(f: Field) { f.Text? || !NeedsQuoting(f.shown) }

  lemma {:induction false} UnquoteRoundTrip(x: string, t: string)
    requires AtSeparator(t)
    ensures UnquoteBody(DoubleQuotes(x) + "\"" + t) == Parsed(x, t)
    decreases |x|
  {
    var s := DoubleQuotes(x) + "\"" + t;
    if x == [] {
      assert s == "\"" + t;
      assert s[1..] == t;
    } else if x[0] == '"' {
      assert s == "\"\"" + (DoubleQuotes(x[1..]) + "\"" + t);
      assert s[2..] == DoubleQuotes(x[1..]) + "\"" + t;
      UnquoteRoundTrip(x[1..], t);
      assert ['"'] + x[1..] == x;
    } else {
      assert s == [x[0]] + (DoubleQuotes(x[1..]) + "\"" + t);
      assert s[1..] == DoubleQuotes(x[1..]) + "\"" + t;
      UnquoteRoundTrip(x[1..], t);
      assert [x[0]] + x[1..] == x;
    }
  }

  lemma {:induction false} PlainLengthPrefix(x: string, t: string)
    requires !NeedsQuoting(x) && AtSeparator(t)
    ensures PlainLength(x + t) == |x|
    decreases |x|
  {
    if x == [] {
      assert x + t == t;
    } else {
      assert (x + t)[1..] == x[1..] + t;
      assert x[0] in x;
      assert !NeedsQuoting(x[1..]) by {
        forall c | c in x[1..] ensures c in x { }
      }
      PlainLengthPrefix(x[1..], t);
    }
  }

  /** A quoted string followed by a separator reads back as the string. */
  lemma QuotedRoundTrip(x: string, t: string)
    requires AtSeparator(t)
    ensures ParseField("\"" + DoubleQuotes(x) + "\"" + t) == Parsed(x, t)
  {
    var s := "\"" + DoubleQuotes(x) + "\"" + t;
    assert s[1..] == DoubleQuotes(x) + "\"" + t;
    UnquoteRoundTrip(x, t);
  }

  /** A string with nothing to quote, followed by a separator, reads back as itself. */
  lemma PlainRoundTrip(x: string, t: string)
    requires !NeedsQuoting(x) && AtSeparator(t)
    ensures ParseField(x + t) == Parsed(x, t)
  {
    PlainLengthPrefix(x, t);
    if x != [] {
      assert x[0] in x;
    }
    assert (x + t)[..|x|] == x && (x + t)[|x|..] == t;
  }

  /** A quoted field followed by a separator reads back as its text. */
  lemma FieldRoundTrip(f: Field, t: string)
    requires Safe(f) && AtSeparator(t)
    ensures ParseField(QuoteField(f) + t) == Parsed(FieldText(f), t)
  {
    if f.Text? && NeedsQuoting(f.text) {
      QuotedRoundTrip(f.text, t);
    } else {
      PlainRoundTrip(FieldText(f), t);
    }
  }

  /** A row of two or more fields: the first field's text, a comma, the rest of the row. */
  lemma FormatRowCons(row: seq<Field>)
    requires |row| >= 2
    ensures FormatRow(row) == QuoteField(row[0]) + "," + FormatRow(row[1..])
  {
    MapSeqCons(row, QuoteField);
  }

  /** A field followed by a comma continues the row after the comma. */
  lemma ParseRowComma(s: string, value: string, tail: string)
    requires ParseField(s) == Parsed(value, "," + tail)
    ensures ParseRow(s) == ParsedRow([value] + ParseRow(tail).fields, ParseRow(tail).rest)
  {
    assert ("," + tail)[1..] == tail;
  }

  /** A formatted row followed by the end or a newline reads back as its field texts. */
  lemma {:induction false} RowRoundTrip(row: seq<Field>, t: string)
    requires row != []
    requires forall k :: 0 <= k < |row| ==> Safe(row[k])
    requires t == [] || t[0] == '\n'
    ensures ParseRow(FormatRow(row) + t) == ParsedRow(RowTexts(row), t)
    decreases |row|
  {
    MapSeqCons(row, FieldText);
    if |row| == 1 {
      FieldRoundTrip(row[0], t);
      assert FormatRow(row) == QuoteField(row[0]);
    } else {
      var tail := FormatRow(row[1..]) + t;
      FormatRowCons(row);
      assert FormatRow(row) + t == QuoteField(row[0]) + ("," + tail);
      FieldRoundTrip(row[0], "," + tail);
      ParseRowComma(FormatRow(row) + t, FieldText(row[0]), tail);
      RowRoundTrip(row[1..], t);
    }
  }

  /** The texts of a row's fields. */
  function RowTexts(row: seq<Field>): seq<string>
  {
    MapSeq(row, FieldText)
  }

  /** Two or more rows: the first row's text, a newline, the rest. */
  lemma FormatCsvCons(rows: seq<seq<Field>>)
    requires |rows| >= 2
    ensures FormatCsv(rows) == FormatRow(rows[0]) + "\n" + FormatCsv(rows[1..])
  {
    MapSeqCons(rows, FormatRow);
  }

  /** A row followed by a newline continues the file after the newline. */
  lemma ParseCsvNewline(s: string, fields: seq<string>, tail: string)
    requires ParseRow(s) == ParsedRow(fields, "\n" + tail)
    ensures ParseCsv(s) == [fields] + ParseCsv(tail)
  {
    assert ("\n" + tail)[1..] == tail;
  }

  /**
   * Reading the CSV text back gives every row's field texts: the quoting
   * rule protects the commas, quotes and newlines inside string fields.
   */
  lemma {:induction false} CsvRoundTrip(rows: seq<seq<Field>>)
    requires rows != []
    requires forall r :: 0 <= r < |rows| ==> rows[r] != []
    requires forall r, k :: 0 <= r < |rows| && 0 <= k < |rows[r]| ==> Safe(rows[r][k])
    ensures ParseCsv(FormatCsv(rows)) == MapSeq(rows, RowTexts)
    decreases |rows|
  {
    MapSeqCons(rows, RowTexts);
    if |rows| == 1 {
      RowRoundTrip(rows[0], []);
      assert FormatCsv(rows) == FormatRow(rows[0]) + [];
    } else {
      var tail := FormatCsv(rows[1..]);
      FormatCsvCons(rows);
      assert FormatCsv(rows) == FormatRow(rows[0]) + ("\n" + tail);
      RowRoundTrip(rows[0], "\n" + tail);
      ParseCsvNewline(FormatCsv(rows), RowTexts(rows[0]), tail);
      CsvRoundTrip(rows[1..]);
    }
  }

  /** The header row of the export. */
  const Header: seq<Field> := [Text("park_id"), Text("longitude"), Text("latitude"),
    Text("park_name"), Text("city"), Text("state"), Text("country")]

  /** `park.longitude || ''`: a truthy coordinate as its number text, otherwise the empty string. */
  function CoordinateField(c: Option<Coordinate>): Field
  {
    if Truthy(c) then Number(c.value.shown) else Text("")
  }

  /** One park's export row. */
  function ParkFields(e: ParkEntry): seq<Field>
  {
    [Text(e.parkId), CoordinateField(e.park.longitude), CoordinateField(e.park.latitude),
     Text(e.park.parkName), Text(e.park.city), Text(e.park.state), Text(e.park.country)]
  }

  /**
   * `exportFile`'s content: `None` (the source returns `false`) for an
   * empty table; otherwise the header and one row per park, in key order.
   */
  function ExportCsv(data: seq<ParkEntry>): (r: Option<string>)
    ensures r.None? <==> data == []
  {
    if data == [] then None else Some(FormatCsv([Header] + MapSeq(data, ParkFields)))
  }

  /** The coordinate texts JavaScript writes for numbers never need quoting. */
  predicate PlainNumbers(data: seq<ParkEntry>)
  {
    forall i :: 0 <= i < |data| ==>
      (data[i].park.longitude.Some? ==> !NeedsQuoting(data[i].park.longitude.value.shown)) &&
      (data[i].park.latitude.Some? ==> !NeedsQuoting(data[i].park.latitude.value.shown))
  }

  /**
   * The exported file reads back as the header names and, for each park in
   * key order, its id, its coordinates (empty when falsy), name, city,
   * state and country, whatever commas, quotes or newlines they contain.
   */
  lemma ExportRoundTrip(data: seq<ParkEntry>)
    requires data != [] && PlainNumbers(data)
    ensures ExportCsv(data).Some?
    ensures ParseCsv(ExportCsv(data).value) == [RowTexts(Header)] + MapSeq(MapSeq(data, ParkFields), RowTexts)
  {
    var rows := [Header] + MapSeq(data, ParkFields);
    forall r, k | 0 <= r < |rows| && 0 <= k < |rows[r]| ensures Safe(rows[r][k]) {
      if r > 0 {
        assert rows[r] == ParkFields(data[r - 1]);
      }
    }
    CsvRoundTrip(rows);
    MapSeqCons(rows, RowTexts);
    assert rows[1..] == MapSeq(data, ParkFields);
  }
}
