/** DNS TXT data as written by src/dns-responder.ts and read by src/dns-discovery.ts.

    Characters stand for themselves: the byte encoding in between is not modelled, and lower-casing
    is that of ASCII letters. */
module TxtRecords {
  import opened Common

  /** The characters that `trim` removes. */
  predicate IsSpace(c: char) {
    '\t' <= c <= '\r' || c == ' ' || c == '\U{00a0}' || c == '\U{1680}' || '\U{2000}' <= c <= '\U{200a}'
    || c == '\U{2028}' || c == '\U{2029}' || c == '\U{202f}' || c == '\U{205f}' || c == '\U{3000}' || c == '\U{feff}'
  }

  function TrimStart(s: string): (t: string)
    ensures |t| <= |s| && (|t| == |s| <==> t == s)
  {
    if s != [] && IsSpace(s[0]) then TrimStart(s[1..]) else s
  }

  function TrimEnd(s: string): (t: string)
    ensures |t| <= |s| && (|t| == |s| <==> t == s)
  {
    if s != [] && IsSpace(s[|s| - 1]) then TrimEnd(s[..|s| - 1]) else s
  }

  function Trim(s: string): (t: string)
    ensures |t| <= |s| && (|t| == |s| <==> t == s)
  {
    TrimEnd(TrimStart(s))
  }

  function Lower(s: string): (t: string)
    ensures |t| == |s|
  {
    if s == [] then [] else [LowerChar(s[0])] + Lower(s[1..])
  }

  /** `indexOf("=")` */
  function EqualsAt(s: string): (i: int)
    ensures -1 <= i < |s| && (i >= 0 ==> s[i] == '=') && (i < 0 <==> '=' !in s)
    ensures forall j :: 0 <= j < i ==> s[j] != '='
  {
    if s == [] then -1
    else if s[0] == '=' then 0
    else var i := EqualsAt(s[1..]); if i < 0 then -1 else i + 1
  }

  type Pair = (string, string)

  /** Entries in property order, those with empty values left out. */
  function Encode(entries: seq<Pair>): seq<string> {
    if entries == [] then []
    else (if |entries[0].1| > 0 then [Chunk(entries[0].0, entries[0].1)] else []) + Encode(entries[1..])
  }

  function ParseChunk(result: map<string, string>, chunk: string): map<string, string> {
    var i := EqualsAt(chunk);
    if i > 0 then result[Lower(Trim(chunk[..i])) := Trim(chunk[i + 1..])] else result
  }

  function ParseChunks(result: map<string, string>, chunks: seq<string>): map<string, string>
    decreases |chunks|
  {
    if chunks == [] then result else ParseChunks(ParseChunk(result, chunks[0]), chunks[1..])
  }

  function ParseRecords(result: map<string, string>, records: seq<seq<string>>): map<string, string>
    decreases |records|
  {
    if records == [] then result else ParseRecords(ParseChunks(result, records[0]), records[1..])
  }

  // ---------------------------------------------------------------------------
  // Round trip
  // ---------------------------------------------------------------------------

  predicate CleanKey(key: string) { key != [] && '=' !in key && Trim(key) == key && Lower(key) == key }

  predicate CleanValue(value: string) { Trim(value) == value }

  function Chunk(key: string, value: string): string { key + "=" + value }

  lemma ChunkParts(key: string, value: string)
    ensures var i := EqualsAt(Chunk(key, value));
      if '=' in key then 0 <= i < |key|
      else i == |key| && Chunk(key, value)[..i] == key && Chunk(key, value)[i + 1..] == value
  {
    var chunk := Chunk(key, value);
    assert chunk[|key|] == '=';
    assert forall j :: 0 <= j < |key| ==> chunk[j] == key[j];
    if '=' !in key { assert chunk[..|key|] == key && chunk[|key| + 1..] == value; }
  }

  lemma SameSingleton(k: string, v: string, key: string, value: string)
    ensures map[k := v] == map[key := value] <==> k == key && v == value
  {
    assert key in map[key := value] && map[key := value][key] == value;
  }

  /** One entry comes back if and only if its key is not empty, has no equals sign, and neither
      trimming nor lower-casing changes key or value; values may contain `=`. */
  lemma EntrySurvivesIff(key: string, value: string)
    ensures ParseChunk(map[], Chunk(key, value)) == map[key := value] <==> CleanKey(key) && CleanValue(value)
  {
    ChunkParts(key, value);
    var chunk := Chunk(key, value);
    var i := EqualsAt(chunk);
    if i > 0 {
      SameSingleton(Lower(Trim(chunk[..i])), Trim(chunk[i + 1..]), key, value);
      assert ParseChunk(map[], chunk) == map[Lower(Trim(chunk[..i])) := Trim(chunk[i + 1..])];
      if i == |key| { LowerTrim(key); }
    } else {
      assert key in map[key := value];
    }
  }

  lemma LowerTrim(key: string)
    ensures Lower(Trim(key)) == key <==> Trim(key) == key && Lower(key) == key
  {
    assert |Lower(Trim(key))| == |Trim(key)|;
  }

  lemma EntrySurvives(key: string, value: string, result: map<string, string>)
    requires CleanKey(key) && CleanValue(value)
    ensures ParseChunk(result, Chunk(key, value)) == result[key := value]
  {
    ChunkParts(key, value);
  }

  ghost predicate Clean(entries: seq<Pair>) {
    forall e :: e in entries ==> CleanKey(e.0) && CleanValue(e.1)
  }

  ghost predicate DistinctKeys(entries: seq<Pair>) {
    forall i, j :: 0 <= i < j < |entries| ==> entries[i].0 != entries[j].0
  }

  /** The entries with a value written into a map one after the other; the last of a key stays. */
  function WriteAll(base: map<string, string>, entries: seq<Pair>): map<string, string>
    decreases |entries|
  {
    if entries == [] then base
    else WriteAll(if |entries[0].1| > 0 then base[entries[0].0 := entries[0].1] else base, entries[1..])
  }

  lemma {:induction false} ParseUndoesEncode(base: map<string, string>, entries: seq<Pair>)
    requires Clean(entries)
    ensures ParseChunks(base, Encode(entries)) == WriteAll(base, entries)
    decreases |entries|
  {
    if entries != [] {
      var e, rest := entries[0], entries[1..];
      assert e in entries && forall d :: d in rest ==> d in entries;
      if |e.1| > 0 {
        EntrySurvives(e.0, e.1, base);
        ParseUndoesEncode(base[e.0 := e.1], rest);
        ParseFirst(base, Chunk(e.0, e.1), Encode(rest));
      } else {
        assert Encode(entries) == Encode(rest);
        ParseUndoesEncode(base, rest);
      }
    }
  }

  lemma ParseFirst(base: map<string, string>, chunk: string, chunks: seq<string>)
    ensures ParseChunks(base, [chunk] + chunks) == ParseChunks(ParseChunk(base, chunk), chunks)
  {
    assert ([chunk] + chunks)[1..] == chunks;
  }

  lemma {:induction false} WriteAllFacts(base: map<string, string>, entries: seq<Pair>, k: string)
    requires DistinctKeys(entries)
    ensures var m := WriteAll(base, entries);
      && (forall v :: (k, v) in entries && |v| > 0 ==> k in m && m[k] == v)
      && (k in m ==> ((k, m[k]) in entries && |m[k]| > 0) || (k in base && m[k] == base[k]))
      && ((forall i :: 0 <= i < |entries| ==> entries[i].0 != k) ==> (k in m <==> k in base) && (k in m ==> m[k] == base[k]))
    decreases |entries|
  {
    if entries != [] {
      var e, rest := entries[0], entries[1..];
      var base' := if |e.1| > 0 then base[e.0 := e.1] else base;
      WriteAllFacts(base', rest, k);
      assert entries == [e] + rest;
      assert forall i :: 0 <= i < |rest| ==> rest[i] == entries[i + 1] && rest[i].0 != e.0;
    }
  }

  /** Parsing what was encoded gives back the original entries, minus those with empty values. */
  lemma RoundTrip(entries: seq<Pair>)
    requires Clean(entries) && DistinctKeys(entries)
    ensures var m := ParseRecords(map[], [Encode(entries)]);
      && (forall e :: e in entries && |e.1| > 0 ==> e.0 in m && m[e.0] == e.1)
      && (forall k :: k in m ==> (k, m[k]) in entries && |m[k]| > 0)
  {
    ParseUndoesEncode(map[], entries);
    assert [Encode(entries)][1..] == [];
    var m := WriteAll(map[], entries);
    assert ParseRecords(map[], [Encode(entries)]) == m;
    forall e | e in entries && |e.1| > 0 ensures e.0 in m && m[e.0] == e.1 {
      WriteAllFacts(map[], entries, e.0);
      assert (e.0, e.1) in entries;
    }
    forall k | k in m ensures (k, m[k]) in entries && |m[k]| > 0 { WriteAllFacts(map[], entries, k); }
  }

  // ---------------------------------------------------------------------------
  // What parsing overlooks
  // ---------------------------------------------------------------------------

  predicate NoSpaceAround(s: string) { s != "" ==> !IsSpace(s[0]) && !IsSpace(s[|s| - 1]) }

  ghost predicate AllSpaces(s: string) { forall c :: c in s ==> IsSpace(c) }

  lemma {:induction false} TrimStartOf(a: string, s: string)
    requires AllSpaces(a) && (s != "" ==> !IsSpace(s[0]))
    ensures TrimStart(a + s) == s
    decreases |a|
  {
    if a == "" {
      assert a + s == s;
    } else {
      assert a[0] in a && (a + s)[0] == a[0] && (a + s)[1..] == a[1..] + s;
      TrimStartOf(a[1..], s);
    }
  }

  lemma {:induction false} TrimEndOf(s: string, b: string)
    requires AllSpaces(b) && (s != "" ==> !IsSpace(s[|s| - 1]))
    ensures TrimEnd(s + b) == s
    decreases |b|
  {
    if b == "" {
      assert s + b == s;
    } else {
      var n := |b| - 1;
      assert b[n] in b && (s + b)[|s + b| - 1] == b[n] && (s + b)[..|s + b| - 1] == s + b[..n];
      TrimEndOf(s, b[..n]);
    }
  }

  lemma TrimOf(a: string, s: string, b: string)
    requires AllSpaces(a) && AllSpaces(b) && NoSpaceAround(s)
    ensures Trim(a + s + b) == s
  {
    if s == "" {
      assert a + s + b == (a + b) + "" && forall c :: c in a + b ==> c in a || c in b;
      TrimStartOf(a + b, "");
      TrimEndOf("", "");
      assert "" + "" == "";
    } else {
      assert a + s + b == a + (s + b) && (s + b)[0] == s[0];
      TrimStartOf(a, s + b);
      TrimEndOf(s, b);
    }
  }

  /** Trimming leaves exactly the texts alone that have no space at either end. */
  lemma TrimFixesIff(s: string)
    ensures Trim(s) == s <==> NoSpaceAround(s)
  {
    if NoSpaceAround(s) {
      assert "" + s + "" == s;
      TrimOf("", s, "");
    } else if IsSpace(s[0]) {
      assert |TrimStart(s)| < |s|;
    } else {
      assert TrimStart(s) == s && |TrimEnd(s)| < |s|;
    }
  }

  predicate IsCapital(c: char) { 'A' <= c <= 'Z' }

  /** Lower-casing leaves exactly the texts alone that have no capital letter. */
  lemma LowerFixesIff(s: string)
    ensures Lower(s) == s <==> forall c :: c in s ==> !IsCapital(c)
  {
    if s != "" {
      var c, rest := s[0], s[1..];
      LowerFixesIff(rest);
      assert Lower(s) == [LowerChar(c)] + Lower(rest) && s == [c] + rest;
      assert LowerChar(c) == c <==> !IsCapital(c);
      assert Lower(s) == s <==> LowerChar(c) == c && Lower(rest) == rest by {
        assert Lower(s)[0] == LowerChar(c) && Lower(s)[1..] == Lower(rest);
      }
      assert forall x :: x in s <==> x == c || x in rest;
      if forall x :: x in s ==> !IsCapital(x) {
        assert c in s && forall x :: x in rest ==> x in s;
      }
    }
  }

  /** What a key must look like to survive. */
  lemma CleanKeyIff(key: string)
    ensures CleanKey(key)
      <==> key != "" && NoSpaceAround(key) && forall c :: c in key ==> c != '=' && !IsCapital(c)
  {
    TrimFixesIff(key);
    LowerFixesIff(key);
  }

  /** Space around key and value and capital letters in the key make no difference to the parser. */
  lemma SpaceAndCaseAreOverlooked(
      result: map<string, string>, a: string, key: string, b: string, c: string, value: string, d: string)
    requires AllSpaces(a) && AllSpaces(b) && AllSpaces(c) && AllSpaces(d)
    requires key != "" && '=' !in key && NoSpaceAround(key) && NoSpaceAround(value)
    ensures ParseChunk(result, Chunk(a + key + b, c + value + d)) == result[Lower(key) := value]
  {
    assert '=' !in a + key + b by {
      assert forall x :: x in a + key + b ==> x in a || x in key || x in b;
      assert !IsSpace('=');
    }
    ChunkParts(a + key + b, c + value + d);
    TrimOf(a, key, b);
    TrimOf(c, value, d);
  }

  // ---------------------------------------------------------------------------
  // The loops
  // ---------------------------------------------------------------------------

  method EncodeTxtData(txt: seq<Pair>) returns (buffers: seq<string>)
    ensures buffers == Encode(txt)
  {
    buffers := [];
    for i := 0 to |txt|
      invariant buffers + Encode(txt[i..]) == Encode(txt)
    {
      assert txt[i..][1..] == txt[i + 1..];
      var (key, value) := txt[i];
      if |value| > 0 {
        buffers := buffers + [Chunk(key, value)];
      }
    }
  }

  method ParseTxtRecords(records: seq<seq<string>>) returns (result: map<string, string>)
    ensures result == ParseRecords(map[], records)
  {
    result := map[];
    for i := 0 to |records|
      invariant ParseRecords(result, records[i..]) == ParseRecords(map[], records)
    {
      assert records[i..][1..] == records[i + 1..];
      var chunks := records[i];
      ghost var before := result;
      for j := 0 to |chunks|
        invariant ParseChunks(result, chunks[j..]) == ParseChunks(before, chunks)
      {
        assert chunks[j..][1..] == chunks[j + 1..];
        var chunk := chunks[j];
        var eqIdx := EqualsAt(chunk);
        if eqIdx > 0 {
          var key := Lower(Trim(chunk[..eqIdx]));
          var value := Trim(chunk[eqIdx + 1..]);
          result := result[key := value];
        }
      }
    }
  }
}
