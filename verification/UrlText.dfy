/** The parts of the URL library that web pages' x-callback-url support stands on: splitting a URL,
    percent-encoding (section 2.1 of RFC 3986) with a space written as plus (section 5 of the WHATWG
    URL Standard), and reading a query as pairs. Text is printable ASCII. `kept` is the set of
    characters that the encoder leaves alone. */
module UrlText {
  import opened Wrappers

  type Pair = (string, string)

  /** The first place of `c` in `s`, or the end. */
  function Find(s: string, c: char): (i: nat)
    ensures i <= |s| && c !in s[..i]
    ensures i < |s| ==> s[i] == c
  {
    if s == [] || s[0] == c then 0
    else
      var i := 1 + Find(s[1..], c);
      assert s[..i] == [s[0]] + s[1..][..i - 1];
      i
  }

  lemma FindUnique(s: string, c: char, i: nat)
    requires i <= |s| && c !in s[..i] && (i < |s| ==> s[i] == c)
    ensures Find(s, c) == i
  {
    var j := Find(s, c);
  }

  // ---------------------------------------------------------------------------------------
  // Percent-encoding
  // ---------------------------------------------------------------------------------------

  predicate Printable(s: string) {
    forall i | 0 <= i < |s| :: ' ' <= s[i] <= '~'
  }

  /** The bytes of a std::string. */
  predicate Bytes(s: string) {
    forall i | 0 <= i < |s| :: s[i] as int < 256
  }

  /** Section 2.3 of RFC 3986. */
  predicate Unreserved(c: char) {
    'a' <= c <= 'z' || 'A' <= c <= 'Z' || '0' <= c <= '9' || c == '-' || c == '.' || c == '_' || c == '~'
  }

  /** The encoder keeps the unreserved characters, and none that means something in a query. */
  ghost predicate Encoder(kept: set<char>) {
    && (forall c: char :: Unreserved(c) ==> c in kept)
    && kept !! {'%', '+', '&', '=', '#', ' '}
  }

  const HEX := "0123456789ABCDEF"

  function DigitValue(c: char): Option<nat> {
    if '0' <= c <= '9' then Some(c as int - '0' as int)
    else if 'A' <= c <= 'F' then Some(c as int - 'A' as int + 10)
    else if 'a' <= c <= 'f' then Some(c as int - 'a' as int + 10)
    else None
  }

  function Digit(n: nat): (c: char)
    requires n < 16
    ensures ('0' <= c <= '9' || 'A' <= c <= 'F') && DigitValue(c) == Some(n)
  {
    HEX[n]
  }

  function EncodeChar(kept: set<char>, c: char): string
    requires c as int < 256
  {
    if c == ' ' then "+"
    else if c in kept then [c]
    else ['%', Digit(c as int / 16), Digit(c as int % 16)]
  }

  function Encode(kept: set<char>, s: string): string
    requires Bytes(s)
  {
    if s == [] then [] else EncodeChar(kept, s[0]) + Encode(kept, s[1..])
  }

  /** The printable character that starts `s` as %XY, if one does. */
  function Escaped(s: string): Option<char> {
    if |s| < 3 || s[0] != '%' then None
    else match (DigitValue(s[1]), DigitValue(s[2]))
      case (Some(h), Some(l)) => if ' ' as int <= 16 * h + l <= '~' as int then Some((16 * h + l) as char) else None
      case _ => None
  }

  function Decode(s: string): string {
    if s == [] then []
    else if s[0] == '+' then " " + Decode(s[1..])
    else if Escaped(s).Some? then [Escaped(s).value] + Decode(s[3..])
    else [s[0]] + Decode(s[1..])
  }

  lemma DecodeEncodeChar(kept: set<char>, c: char, rest: string)
    requires Encoder(kept) && ' ' <= c <= '~'
    ensures Decode(EncodeChar(kept, c) + rest) == [c] + Decode(rest)
  {
    var e := EncodeChar(kept, c) + rest;
    if c == ' ' || c in kept {
      assert e[1..] == rest;
      assert c in kept ==> c != '%' && c != '+' && Escaped(e).None?;
    } else {
      var h, l := c as int / 16, c as int % 16;
      assert e[0] == '%' && e[1] == Digit(h) && e[2] == Digit(l) && e[3..] == rest;
      assert Escaped(e) == Some(c);
    }
  }

  lemma {:induction false} DecodeEncode(kept: set<char>, s: string)
    requires Encoder(kept) && Printable(s)
    ensures Decode(Encode(kept, s)) == s
  {
    if s != [] {
      DecodeEncodeChar(kept, s[0], Encode(kept, s[1..]));
      DecodeEncode(kept, s[1..]);
    }
  }

  /** Text is encoded character by character. */
  lemma {:induction false} EncodeConcat(kept: set<char>, a: string, b: string)
    requires Bytes(a) && Bytes(b)
    ensures Bytes(a + b) && Encode(kept, a + b) == Encode(kept, a) + Encode(kept, b)
  {
    if a == [] {
      assert a + b == b;
    } else {
      var first, rest := a[0], a[1..];
      assert (a + b)[0] == first && (a + b)[1..] == rest + b;
      EncodeConcat(kept, rest, b);
      assert Encode(kept, a + b) == EncodeChar(kept, first) + Encode(kept, rest + b);
      assert Encode(kept, a) == EncodeChar(kept, first) + Encode(kept, rest);
    }
  }

  /** A space as plus, another that is not kept as a percent sign and two hexadecimal digits. */
  lemma EncodeSpells(kept: set<char>, c: char)
    requires c as int < 256
    ensures Encode(kept, [c]) ==
            if c == ' ' then "+"
            else if c in kept then [c]
            else ['%', "0123456789ABCDEF"[c as int / 16], "0123456789ABCDEF"[c as int % 16]]
  {
    assert [c][1..] == [];
  }

  /** Any text is decoded from the left, escapes in either case. */
  lemma DecodeReadsEitherCase(hi: nat, lo: nat, x: char, y: char, rest: string)
    requires hi < 16 && lo < 16 && ' ' as int <= 16 * hi + lo <= '~' as int
    requires x == "0123456789ABCDEF"[hi] || x == "0123456789abcdef"[hi]
    requires y == "0123456789ABCDEF"[lo] || y == "0123456789abcdef"[lo]
    ensures Decode(['%', x, y] + rest) == [(16 * hi + lo) as char] + Decode(rest)
  {
    var s := ['%', x, y] + rest;
    assert DigitValue(x) == Some(hi);
    assert DigitValue(y) == Some(lo);
    assert s[1] == x && s[2] == y && s[3..] == rest;
  }

  /** A plus stands for a space; any other character stands for itself, and so does a percent sign
      that two hexadecimal digits do not follow. */
  lemma DecodeReadsOthers(c: char, rest: string)
    requires c == '%' ==>
               |rest| < 2 || rest[0] !in "0123456789ABCDEFabcdef" || rest[1] !in "0123456789ABCDEFabcdef"
    ensures Decode([c] + rest) == (if c == '+' then " " else [c]) + Decode(rest)
  {
    var s := [c] + rest;
    assert s[0] == c && s[1..] == rest;
    if c == '%' && |rest| >= 2 {
      assert s[1] == rest[0] && s[2] == rest[1];
      DigitsOnly(rest[0]);
      DigitsOnly(rest[1]);
    }
  }

  lemma DigitsOnly(c: char)
    ensures DigitValue(c).Some? ==> c in "0123456789ABCDEFabcdef"
  {
    var digits := "0123456789ABCDEFabcdef";
    if '0' <= c <= '9' {
      assert digits[c as int - '0' as int] == c;
    } else if 'A' <= c <= 'F' {
      assert digits[c as int - 'A' as int + 10] == c;
    } else if 'a' <= c <= 'f' {
      assert digits[c as int - 'a' as int + 16] == c;
    }
  }

  /** Encoded text has no separators of a query in it. */
  lemma {:induction false} EncodeHasNoSeparators(kept: set<char>, s: string)
    requires Encoder(kept) && Bytes(s)
    ensures '&' !in Encode(kept, s) && '=' !in Encode(kept, s)
  {
    if s != [] {
      EncodeHasNoSeparators(kept, s[1..]);
      assert '&' !in EncodeChar(kept, s[0]) && '=' !in EncodeChar(kept, s[0]);
    }
  }

  predicate AllKept(kept: set<char>, s: string) {
    forall i | 0 <= i < |s| :: s[i] in kept
  }

  function Weight(s: string): nat {
    if s == [] then 0 else (if s[0] == ' ' then 1 else 2) + Weight(s[1..])
  }

  lemma {:induction false} WeightAppend(a: string, b: string)
    ensures Weight(a + b) == Weight(a) + Weight(b)
  {
    if a == [] {
      assert a + b == b;
    } else {
      assert (a + b)[1..] == a[1..] + b;
      WeightAppend(a[1..], b);
    }
  }

  lemma WeightOfEncodedChar(kept: set<char>, c: char)
    requires Encoder(kept) && c as int < 256
    ensures c in kept ==> Weight(EncodeChar(kept, c)) == Weight([c])
    ensures c !in kept ==> Weight(EncodeChar(kept, c)) > Weight([c])
  {
    if c != ' ' && c !in kept {
      var h, l := Digit(c as int / 16), Digit(c as int % 16);
      assert EncodeChar(kept, c) == ['%'] + ([h] + [l]);
      WeightAppend(['%'], [h] + [l]);
      WeightAppend([h], [l]);
      assert h != ' ' && l != ' ';
    }
  }

  /** Encoding leaves text alone exactly when all of it is kept; otherwise the text gets heavier. */
  lemma {:induction false} EncodeFixed(kept: set<char>, s: string)
    requires Encoder(kept) && Bytes(s)
    ensures AllKept(kept, s) ==> Encode(kept, s) == s
    ensures !AllKept(kept, s) ==> Weight(Encode(kept, s)) > Weight(s)
  {
    if s != [] {
      EncodeFixed(kept, s[1..]);
      assert s == [s[0]] + s[1..];
      WeightAppend(EncodeChar(kept, s[0]), Encode(kept, s[1..]));
      WeightOfEncodedChar(kept, s[0]);
    }
  }

  /** Encoded text that has changed would change again. */
  lemma {:induction false} EncodeNeverSettles(kept: set<char>, s: string)
    requires Encoder(kept) && Bytes(s)
    ensures Bytes(Encode(kept, s))
    ensures AllKept(kept, Encode(kept, s)) ==> AllKept(kept, s)
  {
    if s != [] {
      var first, rest := EncodeChar(kept, s[0]), Encode(kept, s[1..]);
      EncodeNeverSettles(kept, s[1..]);
      if AllKept(kept, first + rest) {
        assert forall i | 0 <= i < |rest| :: rest[i] == (first + rest)[|first| + i];
        assert first[0] == (first + rest)[0];
        assert s[0] in kept;
      }
    }
  }

  // ---------------------------------------------------------------------------------------
  // Queries
  // ---------------------------------------------------------------------------------------

  function SplitPair(s: string): Pair {
    var i := Find(s, '=');
    (s[..i], if i < |s| then s[i + 1..] else "")
  }

  /** The text of the first pair, and what the iterator goes on with. */
  function FirstPair(query: string): string {
    query[..Find(query, '&')]
  }

  function AfterPair(query: string): (rest: string)
    ensures |rest| < |query| || query == ""
  {
    var end := Find(query, '&');
    if end < |query| then query[end + 1..] else ""
  }

  /** The pairs a query iterator comes to; an empty rest ends the iteration. */
  function Pairs(query: string): seq<Pair>
    decreases |query|
  {
    if query == "" then [] else [SplitPair(FirstPair(query))] + Pairs(AfterPair(query))
  }

  /** The pairs of `query` when more text follows it. */
  function PairsBefore(query: string): seq<Pair>
    decreases |query|
  {
    var i := Find(query, '&');
    [SplitPair(query[..i])] + if i < |query| then PairsBefore(query[i + 1..]) else []
  }

  lemma PairsOfSegment(head: string, rest: string)
    requires '&' !in head
    ensures Pairs(head + "&" + rest) == [SplitPair(head)] + Pairs(rest)
    ensures PairsBefore(head + "&" + rest) == [SplitPair(head)] + PairsBefore(rest)
  {
    var q := head + "&" + rest;
    assert q[..|head|] == head && q[|head| + 1..] == rest;
    FindUnique(q, '&', |head|);
    assert FirstPair(q) == head && AfterPair(q) == rest;
  }

  lemma PairsOfLastSegment(head: string)
    requires '&' !in head
    ensures head != "" ==> Pairs(head) == [SplitPair(head)]
    ensures PairsBefore(head) == [SplitPair(head)]
  {
    assert head[..|head|] == head;
    FindUnique(head, '&', |head|);
    assert FirstPair(head) == head && AfterPair(head) == "";
  }

  lemma FirstSegment(a: string) returns (head: string, rest: string)
    requires '&' in a
    ensures a == head + "&" + rest && '&' !in head && |rest| < |a|
  {
    var i := Find(a, '&');
    assert a[..|a|] == a;
    head, rest := a[..i], a[i + 1..];
  }

  /** Any query, read segment by segment: a segment is split at its first equals sign, and one without
      has an empty value. */
  lemma SegmentsAreSplit(key: string, value: string, rest: string)
    requires '=' !in key && '&' !in key && '&' !in value
    ensures Pairs(key + "=" + value + "&" + rest) == [(key, value)] + Pairs(rest)
    ensures Pairs(key + "&" + rest) == [(key, "")] + Pairs(rest)
    ensures Pairs(key + "=" + value) == [(key, value)]
    ensures Pairs(key) == if key == "" then [] else [(key, "")]
  {
    var segment := key + "=" + value;
    assert segment[..|key|] == key && segment[|key| + 1..] == value && key[..|key|] == key;
    FindUnique(segment, '=', |key|);
    FindUnique(key, '=', |key|);
    PairsOfSegment(segment, rest);
    PairsOfSegment(key, rest);
    PairsOfLastSegment(segment);
    PairsOfLastSegment(key);
  }

  predicate Joins(a: string, b: string) {
    && Pairs(a + "&" + b) == PairsBefore(a) + Pairs(b)
    && PairsBefore(a + "&" + b) == PairsBefore(a) + PairsBefore(b)
  }

  lemma JoinsBehindSegment(head: string, rest: string, b: string)
    requires '&' !in head && Joins(rest, b)
    ensures Joins(head + "&" + rest, b)
  {
    var a, tail := head + "&" + rest, rest + "&" + b;
    JoinAssociative(head, rest, b);
    var first, pairs, before := [SplitPair(head)], Pairs(b), PairsBefore(b);
    var middle := PairsBefore(rest);
    assert PairsBefore(a) == first + middle by { PairsOfSegment(head, rest); }
    assert Pairs(a + "&" + b) == first + (middle + pairs) by { PairsOfSegment(head, tail); }
    assert PairsBefore(a + "&" + b) == first + (middle + before) by { PairsOfSegment(head, tail); }
    Associative(first, middle, pairs);
    Associative(first, middle, before);
  }

  lemma JoinAssociative(a: string, b: string, c: string)
    ensures a + "&" + b + "&" + c == a + "&" + (b + "&" + c)
  {
  }

  lemma Associative(a: seq<Pair>, b: seq<Pair>, c: seq<Pair>)
    ensures a + (b + c) == a + b + c
  {
  }

  lemma JoinsLastSegment(a: string, b: string)
    requires '&' !in a
    ensures Joins(a, b)
  {
    PairsOfLastSegment(a);
    PairsOfSegment(a, b);
  }

  lemma {:induction false} PairsJoin(a: string, b: string)
    ensures Joins(a, b)
    decreases |a|
  {
    if '&' in a {
      var head, rest := FirstSegment(a);
      PairsJoin(rest, b);
      JoinsBehindSegment(head, rest, b);
    } else {
      JoinsLastSegment(a, b);
    }
  }

  lemma SinglePair(k: string, v: string)
    requires '&' !in k && '=' !in k && '&' !in v
    ensures Pairs(k + "=" + v) == PairsBefore(k + "=" + v) == [(k, v)]
  {
    var s := k + "=" + v;
    PairsOfLastSegment(s);
    assert s[..|k|] == k && s[|k| + 1..] == v;
    FindUnique(s, '=', |k|);
  }

  function AppendQueryParameter(kept: set<char>, query: string, p: Pair): string
    requires Bytes(p.0) && Bytes(p.1)
  {
    (if query == "" then "" else query + "&") + (Encode(kept, p.0) + "=" + Encode(kept, p.1))
  }

  predicate AllBytes(ps: seq<Pair>) {
    forall p | p in ps :: Bytes(p.0) && Bytes(p.1)
  }

  function AppendAll(kept: set<char>, query: string, ps: seq<Pair>): string
    requires AllBytes(ps)
  {
    if ps == [] then query
    else AppendQueryParameter(kept, AppendAll(kept, query, ps[..|ps| - 1]), ps[|ps| - 1])
  }

  function EncodedPairs(kept: set<char>, ps: seq<Pair>): seq<Pair>
    requires AllBytes(ps)
  {
    seq(|ps|, i requires 0 <= i < |ps| => assert ps[i] in ps; (Encode(kept, ps[i].0), Encode(kept, ps[i].1)))
  }

  /** Reading back one more appended pair. */
  lemma PairsOfOneMore(kept: set<char>, text: string, p: Pair)
    requires Encoder(kept) && Bytes(p.0) && Bytes(p.1)
    ensures var read := (if text == "" then [] else PairsBefore(text)) + [(Encode(kept, p.0), Encode(kept, p.1))];
            var longer := AppendQueryParameter(kept, text, p);
            longer != "" && Pairs(longer) == read && PairsBefore(longer) == read
  {
    var k, v := Encode(kept, p.0), Encode(kept, p.1);
    EncodeHasNoSeparators(kept, p.0);
    EncodeHasNoSeparators(kept, p.1);
    SinglePair(k, v);
    if text == "" {
      assert "" + (k + "=" + v) == k + "=" + v;
    } else {
      PairsJoin(text, k + "=" + v);
      assert text + "&" + (k + "=" + v) == AppendQueryParameter(kept, text, p);
    }
  }

  /** What a query reads as once `ps` have been appended to it. */
  function Read(kept: set<char>, query: string, ps: seq<Pair>): seq<Pair>
    requires AllBytes(ps)
  {
    (if query == "" then [] else PairsBefore(query)) + EncodedPairs(kept, ps)
  }

  lemma ReadSnoc(kept: set<char>, query: string, before: seq<Pair>, p: Pair)
    requires AllBytes(before) && AllBytes(before + [p]) && Bytes(p.0) && Bytes(p.1)
    ensures Read(kept, query, before + [p]) == Read(kept, query, before) + [(Encode(kept, p.0), Encode(kept, p.1))]
  {
    assert EncodedPairs(kept, before + [p]) == EncodedPairs(kept, before) + [(Encode(kept, p.0), Encode(kept, p.1))];
  }

  /** Reading back a query that pairs were appended to. */
  lemma {:induction false} PairsOfAppended(kept: set<char>, query: string, ps: seq<Pair>)
    requires Encoder(kept) && AllBytes(ps) && ps != []
    ensures var text := AppendAll(kept, query, ps);
            text != "" && Pairs(text) == Read(kept, query, ps) && PairsBefore(text) == Read(kept, query, ps)
  {
    var before, p := ps[..|ps| - 1], ps[|ps| - 1];
    assert p in ps && ps == before + [p];
    PairsOfOneMore(kept, AppendAll(kept, query, before), p);
    ReadSnoc(kept, query, before, p);
    if before == [] {
      assert Read(kept, query, before) == if query == "" then [] else PairsBefore(query);
    } else {
      PairsOfAppended(kept, query, before);
    }
  }

  // ---------------------------------------------------------------------------------------
  // Maps filled by insertion
  // ---------------------------------------------------------------------------------------

  /** std::map::insert: an entry that is already there stays. */
  function InsertPair(m: map<string, string>, p: Pair): map<string, string> {
    if p.0 in m then m else m[p.0 := p.1]
  }

  function FirstWins(ps: seq<Pair>): map<string, string> {
    if ps == [] then map[] else InsertPair(FirstWins(ps[..|ps| - 1]), ps[|ps| - 1])
  }

  lemma {:induction false} FirstWinsConcat(ps: seq<Pair>, qs: seq<Pair>)
    ensures FirstWins(ps + qs) == FirstWins(qs) + FirstWins(ps)
  {
    if qs == [] {
      assert ps + qs == ps;
    } else {
      assert (ps + qs)[..|ps + qs| - 1] == ps + qs[..|qs| - 1];
      FirstWinsConcat(ps, qs[..|qs| - 1]);
    }
  }

  lemma {:induction false} FirstWinsKeys(ps: seq<Pair>, k: string)
    ensures k in FirstWins(ps) <==> exists p :: p in ps && p.0 == k
  {
    if ps != [] {
      var before, q := ps[..|ps| - 1], ps[|ps| - 1];
      assert ps == before + [q];
      FirstWinsKeys(before, k);
      assert q in ps;
    }
  }

  predicate DistinctNames(ps: seq<Pair>) {
    forall i, j | 0 <= i < j < |ps| :: ps[i].0 != ps[j].0
  }

  /** Pairs with distinct names all go in, as they are. */
  lemma {:induction false} FirstWinsDistinct(ps: seq<Pair>, p: Pair)
    requires DistinctNames(ps) && p in ps
    ensures p.0 in FirstWins(ps) && FirstWins(ps)[p.0] == p.1
  {
    var before, q := ps[..|ps| - 1], ps[|ps| - 1];
    assert ps == before + [q];
    FirstWinsKeys(before, p.0);
    if p in before {
      FirstWinsDistinct(before, p);
    } else {
      assert p == q;
    }
  }
}
