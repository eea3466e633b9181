/** Query strings: wildcard encoding by the client, and the server's splitting and percent-decoding
    (section 2.1 of RFC 3986). */
module QueryString {
  import opened Common

  // ----- encoding -----

  /** strings.Replace(s, mark, "%25", -1) for one character. */
  function ReplaceAll(s: string, mark: char): string {
    if s == "" then "" else (if s[0] == mark then "%25" else [s[0]]) + ReplaceAll(s[1..], mark)
  }

  function Encode(s: string): string {
    ReplaceAll(ReplaceAll(ReplaceAll(s, '%'), '*'), '+')
  }

  predicate IsWildcard(c: char) {
    c == '%' || c == '*' || c == '+'
  }

  /** What the server is to search for: every wildcard spelled the SQL way. */
  function Wild(s: string): (w: string)
    ensures |w| == |s|
    ensures forall i | 0 <= i < |s| :: w[i] == if s[i] == '%' || s[i] == '*' || s[i] == '+' then '%' else s[i]
  {
    seq(|s|, i requires 0 <= i < |s| => if IsWildcard(s[i]) then '%' else s[i])
  }

  function EncodeChar(c: char): string {
    if IsWildcard(c) then "%25" else [c]
  }

  lemma {:induction false} ReplaceConcat(a: string, b: string, mark: char)
    ensures ReplaceAll(a + b, mark) == ReplaceAll(a, mark) + ReplaceAll(b, mark)
  {
    if a == "" {
      assert a + b == b;
    } else {
      assert (a + b)[1..] == a[1..] + b;
      ReplaceConcat(a[1..], b, mark);
    }
  }

  lemma ReplaceOne(c: char, mark: char)
    ensures ReplaceAll([c], mark) == if c == mark then "%25" else [c]
  {
    var s: string := [c];
    assert s[1..] == "";
  }

  lemma EncodeOne(c: char)
    ensures Encode([c]) == EncodeChar(c)
  {
    ReplaceOne(c, '%');
    if c == '%' {
      assert "%25" == ['%'] + (['2'] + ['5']);
      forall mark: char | mark == '*' || mark == '+' ensures ReplaceAll("%25", mark) == "%25" {
        ReplaceConcat(['%'], ['2'] + ['5'], mark);
        ReplaceConcat(['2'], ['5'], mark);
        ReplaceOne('%', mark);
        ReplaceOne('2', mark);
        ReplaceOne('5', mark);
      }
    } else {
      ReplaceOne(c, '*');
      if c == '*' {
        assert "%25" == ['%'] + (['2'] + ['5']);
        ReplaceConcat(['%'], ['2'] + ['5'], '+');
        ReplaceConcat(['2'], ['5'], '+');
        ReplaceOne('%', '+');
        ReplaceOne('2', '+');
        ReplaceOne('5', '+');
      } else {
        ReplaceOne(c, '+');
      }
    }
  }

  /** The three replacements, one after the other, never touch what an earlier one wrote. */
  lemma EncodeConcat(a: string, b: string)
    ensures Encode(a + b) == Encode(a) + Encode(b)
  {
    ReplaceConcat(a, b, '%');
    ReplaceConcat(ReplaceAll(a, '%'), ReplaceAll(b, '%'), '*');
    ReplaceConcat(ReplaceAll(ReplaceAll(a, '%'), '*'), ReplaceAll(ReplaceAll(b, '%'), '*'), '+');
  }

  lemma EncodeFirst(s: string)
    requires s != ""
    ensures Encode(s) == EncodeChar(s[0]) + Encode(s[1..])
  {
    assert s == [s[0]] + s[1..];
    EncodeConcat([s[0]], s[1..]);
    EncodeOne(s[0]);
  }

  // ----- decoding -----

  function HexValue(c: char): (v: int)
    ensures -1 <= v < 16
  {
    if '0' <= c <= '9' then c as int - '0' as int
    else if 'a' <= c <= 'f' then c as int - 'a' as int + 10
    else if 'A' <= c <= 'F' then c as int - 'A' as int + 10
    else -1
  }

  /** url.QueryUnescape; an octet stands for the character with that code. */
  function Unescape(s: string): Option<string> {
    if s == "" then Some("")
    else if s[0] != '%' then
      match Unescape(s[1..])
      case None => None
      case Some(rest) => Some([if s[0] == '+' then ' ' else s[0]] + rest)
    else if |s| < 3 || HexValue(s[1]) == -1 || HexValue(s[2]) == -1 then None
    else
      match Unescape(s[3..])
      case None => None
      case Some(rest) => Some([(16 * HexValue(s[1]) + HexValue(s[2])) as char] + rest)
  }

  const HEX := "0123456789abcdef"
  const UPPER_HEX := "0123456789ABCDEF"

  /** Every octet is read from its two hexadecimal digits, in either case; a plus is a space, and any other character
      stands for itself. */
  lemma UnescapeReads(v: nat, rest: string)
    requires v < 256
    ensures Unescape(['%', HEX[v / 16], HEX[v % 16]] + rest) == Prepend(v as char, Unescape(rest))
    ensures Unescape(['%', UPPER_HEX[v / 16], UPPER_HEX[v % 16]] + rest) == Prepend(v as char, Unescape(rest))
    ensures Unescape("+" + rest) == Prepend(' ', Unescape(rest))
    ensures v as char != '%' && v as char != '+' ==> Unescape([v as char] + rest) == Prepend(v as char, Unescape(rest))
  {
    HexReads(v / 16);
    HexReads(v % 16);
    var low, high := ['%', HEX[v / 16], HEX[v % 16]] + rest, ['%', UPPER_HEX[v / 16], UPPER_HEX[v % 16]] + rest;
    assert low[3..] == rest && high[3..] == rest && ("+" + rest)[1..] == rest && ([v as char] + rest)[1..] == rest;
  }

  lemma HexReads(d: nat)
    requires d < 16
    ensures HexValue(HEX[d]) == d && HexValue(UPPER_HEX[d]) == d
  {
  }

  function Prepend(c: char, tail: Option<string>): Option<string> {
    match tail
    case None => None
    case Some(rest) => Some([c] + rest)
  }

  lemma UnescapeFirst(c: char, s: string)
    ensures Unescape(EncodeChar(c) + s) == Prepend(if IsWildcard(c) then '%' else c, Unescape(s))
  {
    var e := EncodeChar(c) + s;
    if IsWildcard(c) {
      assert e[0] == '%' && e[1] == '2' && e[2] == '5' && e[3..] == s;
      assert (16 * HexValue('2') + HexValue('5')) as char == '%';
    } else {
      assert e[0] == c && e[1..] == s;
    }
  }

  lemma {:induction false} DecodeEncoded(s: string)
    ensures Unescape(Encode(s)) == Some(Wild(s))
  {
    if s != "" {
      EncodeFirst(s);
      DecodeEncoded(s[1..]);
      UnescapeFirst(s[0], Encode(s[1..]));
      WildFirst(s);
    } else {
      assert Encode("") == "" && Wild("") == "";
    }
  }

  lemma WildFirst(s: string)
    requires s != ""
    ensures Wild(s) == [if IsWildcard(s[0]) then '%' else s[0]] + Wild(s[1..])
  {
  }

  // ----- splitting -----

  predicate IsSeparator(c: char) {
    c == '&' || c == ';'
  }

  predicate Clean(s: string) {
    forall c | c in s :: !IsSeparator(c)
  }

  lemma CleanIff(s: string)
    ensures Clean(s) <==> '&' !in s && ';' !in s
  {
    if '&' !in s && ';' !in s {
      forall c | c in s ensures !IsSeparator(c) {}
    } else {
      assert IsSeparator('&') && IsSeparator(';');
    }
  }

  function Split(q: string): (segments: seq<string>)
    ensures |segments| >= 1
    ensures forall s | s in segments :: Clean(s)
  {
    if q == "" then [""]
    else
      var rest := Split(q[1..]);
      if IsSeparator(q[0]) then [""] + rest else
      assert rest[0] in rest;
      [[q[0]] + rest[0]] + rest[1..]
  }

  /** At the first '='; without one the value is empty. */
  function Cut(segment: string): (kv: (string, string))
    ensures Clean(segment) ==> Clean(kv.0) && Clean(kv.1)
  {
    if segment == "" then ("", "")
    else if segment[0] == '=' then ("", segment[1..])
    else
      var kv := Cut(segment[1..]);
      ([segment[0]] + kv.0, kv.1)
  }

  /** Empty segments and pairs with a bad escape are skipped. */
  function Pairs(segments: seq<string>): seq<(string, string)> {
    if segments == [] then []
    else
      var kv := Cut(segments[0]);
      var rest := Pairs(segments[1..]);
      match (Unescape(kv.0), Unescape(kv.1))
      case (Some(k), Some(v)) => if segments[0] == "" then rest else [(k, v)] + rest
      case _ => rest
  }

  function Form(pairs: seq<(string, string)>): map<string, seq<string>> {
    if pairs == [] then map[]
    else
      var m, kv := Form(pairs[..|pairs| - 1]), pairs[|pairs| - 1];
      m[kv.0 := (if kv.0 in m then m[kv.0] else []) + [kv.1]]
  }

  /** The values that come under a name, in order. */
  function ValuesUnder(pairs: seq<(string, string)>, name: string): seq<string> {
    if pairs == [] then []
    else (if pairs[0].0 == name then [pairs[0].1] else []) + ValuesUnder(pairs[1..], name)
  }

  lemma {:induction false} ValuesUnderConcat(a: seq<(string, string)>, b: seq<(string, string)>, name: string)
    ensures ValuesUnder(a + b, name) == ValuesUnder(a, name) + ValuesUnder(b, name)
  {
    if a == [] {
      assert a + b == b;
    } else {
      assert (a + b)[1..] == a[1..] + b;
      ValuesUnderConcat(a[1..], b, name);
    }
  }

  /** The form has a name exactly if some pair has, and its values in the order in which they come. */
  lemma {:induction false} FormKeepsOrder(pairs: seq<(string, string)>, name: string)
    ensures name in Form(pairs) <==> ValuesUnder(pairs, name) != []
    ensures name in Form(pairs) ==> Form(pairs)[name] == ValuesUnder(pairs, name)
  {
    if pairs != [] {
      var init, last := pairs[..|pairs| - 1], pairs[|pairs| - 1];
      FormKeepsOrder(init, name);
      ValuesUnderConcat(init, [last], name);
      assert [last][1..] == [] && pairs == init + [last];
    }
  }

  /** url.ParseQuery */
  function ParseQuery(q: string): map<string, seq<string>> {
    Form(Pairs(Split(q)))
  }

  // ----- the server's reading of an encoded query -----

  lemma {:induction false} SplitBehind(a: string, b: string)
    requires Clean(a)
    ensures Split(a + b) == [a + Split(b)[0]] + Split(b)[1..]
  {
    if a == "" {
      assert a + b == b && a + Split(b)[0] == Split(b)[0];
    } else {
      assert (a + b)[1..] == a[1..] + b;
      SplitBehind(a[1..], b);
      assert a + Split(b)[0] == [a[0]] + (a[1..] + Split(b)[0]);
    }
  }

  function EncodeEach(segments: seq<string>): (coded: seq<string>)
    ensures |coded| == |segments| && forall i | 0 <= i < |segments| :: coded[i] == Encode(segments[i])
  {
    seq(|segments|, i requires 0 <= i < |segments| => Encode(segments[i]))
  }

  lemma EncodeEachConcat(a: seq<string>, b: seq<string>)
    ensures EncodeEach(a + b) == EncodeEach(a) + EncodeEach(b)
  {
  }

  lemma EncodePlain(c: char, s: string)
    requires !IsWildcard(c)
    ensures Encode([c] + s) == [c] + Encode(s)
  {
    EncodeConcat([c], s);
    EncodeOne(c);
  }

  lemma SplitFirst(c: char, s: string)
    requires IsSeparator(c)
    ensures Split([c] + s) == [""] + Split(s)
  {
    assert ([c] + s)[1..] == s;
  }

  lemma SplitEncodedSeparator(c: char, rest: string)
    requires IsSeparator(c) && Split(Encode(rest)) == EncodeEach(Split(rest))
    ensures Split(Encode([c] + rest)) == EncodeEach(Split([c] + rest))
  {
    EncodePlain(c, rest);
    SplitFirst(c, rest);
    SplitFirst(c, Encode(rest));
    EncodeEachConcat([""], Split(rest));
  }

  lemma EncodeEachFirst(first: string, rest: seq<string>)
    ensures EncodeEach([first] + rest) == [Encode(first)] + EncodeEach(rest)
  {
    EncodeEachConcat([first], rest);
  }

  lemma SplitEncodedOther(c: char, rest: string)
    requires !IsSeparator(c) && Split(Encode(rest)) == EncodeEach(Split(rest))
    ensures Split(Encode([c] + rest)) == EncodeEach(Split([c] + rest))
  {
    var first, others := Split(rest)[0], Split(rest)[1..];
    EncodeConcat([c], rest);
    EncodeOne(c);
    SplitBehind(EncodeChar(c), Encode(rest));
    SplitBehind([c], rest);
    EncodeConcat([c], first);
    EncodeEachFirst([c] + first, others);
    assert [first] + others == Split(rest);
    EncodeEachFirst(first, others);
  }

  lemma {:induction false} SplitEncoded(q: string)
    ensures Split(Encode(q)) == EncodeEach(Split(q))
  {
    if q != "" {
      SplitEncoded(q[1..]);
      assert q == [q[0]] + q[1..];
      if IsSeparator(q[0]) {
        SplitEncodedSeparator(q[0], q[1..]);
      } else {
        SplitEncodedOther(q[0], q[1..]);
      }
    }
  }

  lemma {:induction false} CutBehind(a: string, b: string)
    requires '=' !in a
    ensures Cut(a + b) == (a + Cut(b).0, Cut(b).1)
  {
    if a == "" {
      assert a + b == b && a + Cut(b).0 == Cut(b).0;
    } else {
      assert (a + b)[1..] == a[1..] + b;
      CutBehind(a[1..], b);
      assert a + Cut(b).0 == [a[0]] + (a[1..] + Cut(b).0);
    }
  }

  lemma {:induction false} CutEncoded(segment: string)
    ensures Cut(Encode(segment)) == (Encode(Cut(segment).0), Encode(Cut(segment).1))
  {
    if segment != "" {
      EncodeFirst(segment);
      if segment[0] == '=' {
        assert Encode(segment)[1..] == Encode(segment[1..]);
      } else {
        CutEncoded(segment[1..]);
        CutBehind(EncodeChar(segment[0]), Encode(segment[1..]));
        var k := [segment[0]] + Cut(segment[1..]).0;
        EncodeFirst(k);
        assert k[1..] == Cut(segment[1..]).0;
      }
    }
  }

  function WildPairs(segments: seq<string>): seq<(string, string)> {
    if segments == [] then []
    else
      var kv := Cut(segments[0]);
      (if segments[0] == "" then [] else [(Wild(kv.0), Wild(kv.1))]) + WildPairs(segments[1..])
  }

  lemma PairOfEncoded(segment: string)
    ensures Encode(segment) == "" <==> segment == ""
    ensures Unescape(Cut(Encode(segment)).0) == Some(Wild(Cut(segment).0))
    ensures Unescape(Cut(Encode(segment)).1) == Some(Wild(Cut(segment).1))
  {
    CutEncoded(segment);
    DecodeEncoded(Cut(segment).0);
    DecodeEncoded(Cut(segment).1);
    if segment != "" {
      EncodeFirst(segment);
    }
  }

  lemma {:induction false} PairsOfEncoded(segments: seq<string>)
    ensures Pairs(EncodeEach(segments)) == WildPairs(segments)
  {
    if segments != [] {
      var coded := EncodeEach(segments);
      assert coded[1..] == EncodeEach(segments[1..]);
      PairsOfEncoded(segments[1..]);
      PairOfEncoded(segments[0]);
    }
  }

  /** For every query: the server reads an encoded one as the plain one with its wildcards spelled '%'. */
  lemma EncodedQueryIsRead(q: string)
    ensures ParseQuery(Encode(q)) == Form(WildPairs(Split(q)))
  {
    SplitEncoded(q);
    PairsOfEncoded(Split(q));
  }

  // ----- joining -----

  function Join(pairs: seq<(string, string)>): string {
    if pairs == [] then ""
    else
      var init, kv := pairs[..|pairs| - 1], pairs[|pairs| - 1];
      (if init == [] then "" else Join(init) + "&") + kv.0 + "=" + kv.1
  }

  predicate IsName(k: string) {
    k != "" && forall c | c in k :: 'a' <= c <= 'z'
  }

  lemma {:induction false} SplitAtSeparator(a: string, b: string)
    ensures Split(a + "&" + b) == Split(a) + Split(b)
  {
    if a == "" {
      assert (a + "&" + b)[1..] == b;
    } else {
      assert (a + "&" + b)[1..] == a[1..] + "&" + b;
      SplitAtSeparator(a[1..], b);
    }
  }

  lemma {:induction false} WildPairsConcat(a: seq<string>, b: seq<string>)
    ensures WildPairs(a + b) == WildPairs(a) + WildPairs(b)
  {
    if a == [] {
      assert a + b == b;
    } else {
      assert (a + b)[1..] == a[1..] + b;
      WildPairsConcat(a[1..], b);
    }
  }

  lemma NameIsPlain(k: string)
    requires IsName(k)
    ensures Wild(k) == k && Clean(k) && '=' !in k
  {
    forall i | 0 <= i < |k| ensures !IsWildcard(k[i]) {
      assert k[i] in k;
    }
  }

  lemma ReadOne(k: string, v: string)
    requires IsName(k) && Clean(v)
    ensures WildPairs(Split(k + "=" + v)) == [(k, Wild(v))]
  {
    var segment := k + "=" + v;
    NameIsPlain(k);
    CutBehind(k, "=" + v);
    assert segment == k + ("=" + v) && ("=" + v)[1..] == v && k + "" == k;
    SplitBehind(segment, "");
    assert segment + "" == segment;
    assert Split(segment) == [segment];
    assert WildPairs([segment]) == [(Wild(k), Wild(v))] + WildPairs([segment][1..]);
  }

  function WildEach(pairs: seq<(string, string)>): (wild: seq<(string, string)>)
    ensures |wild| == |pairs| && forall i | 0 <= i < |pairs| :: wild[i] == (pairs[i].0, Wild(pairs[i].1))
  {
    seq(|pairs|, i requires 0 <= i < |pairs| => (pairs[i].0, Wild(pairs[i].1)))
  }

  lemma ReadMore(init: seq<(string, string)>, kv: (string, string))
    requires init != [] && WildPairs(Split(Join(init))) == WildEach(init) && IsName(kv.0) && Clean(kv.1)
    ensures WildPairs(Split(Join(init + [kv]))) == WildEach(init + [kv])
  {
    var pairs, segment := init + [kv], kv.0 + "=" + kv.1;
    assert pairs[..|pairs| - 1] == init;
    assert Join(pairs) == Join(init) + "&" + segment;
    ReadOne(kv.0, kv.1);
    SplitAtSeparator(Join(init), segment);
    WildPairsConcat(Split(Join(init)), Split(segment));
  }

  lemma {:induction false} ReadJoined(pairs: seq<(string, string)>)
    requires pairs != [] && forall kv | kv in pairs :: IsName(kv.0) && Clean(kv.1)
    ensures WildPairs(Split(Join(pairs))) == WildEach(pairs)
    decreases |pairs|
  {
    var init, kv := pairs[..|pairs| - 1], pairs[|pairs| - 1];
    assert kv in pairs && pairs == init + [kv];
    if init == [] {
      ReadOne(kv.0, kv.1);
      assert Join(pairs) == kv.0 + "=" + kv.1;
    } else {
      ReadJoined(init);
      ReadMore(init, kv);
    }
  }

  /** A form read from pairs with distinct names holds each value alone. */
  lemma {:induction false} FormOfDistinct(pairs: seq<(string, string)>, i: nat)
    requires forall i, j | 0 <= i < j < |pairs| :: pairs[i].0 != pairs[j].0
    requires i < |pairs|
    ensures pairs[i].0 in Form(pairs) && Form(pairs)[pairs[i].0] == [pairs[i].1]
    decreases |pairs|
  {
    var init, last := pairs[..|pairs| - 1], pairs[|pairs| - 1];
    if i < |init| {
      FormOfDistinct(init, i);
    } else {
      assert last.0 !in Form(init) by {
        if last.0 in Form(init) {
          var j := FormNames(init, last.0);
        }
      }
    }
  }

  lemma {:induction false} FormNames(pairs: seq<(string, string)>, k: string) returns (i: nat)
    requires k in Form(pairs)
    ensures i < |pairs| && pairs[i].0 == k
    decreases |pairs|
  {
    var init, last := pairs[..|pairs| - 1], pairs[|pairs| - 1];
    i := |init|;
    if last.0 != k {
      i := FormNames(init, k);
    }
  }

  lemma {:induction false} ReadsClean(segments: seq<string>)
    requires forall s | s in segments :: Clean(s)
    ensures forall kv | kv in WildPairs(segments) :: Clean(kv.1)
  {
    if segments != [] {
      assert segments[0] in segments;
      ReadsClean(segments[1..]);
    }
  }

  lemma {:induction false} FormHoldsValues(pairs: seq<(string, string)>)
    requires forall kv | kv in pairs :: Clean(kv.1)
    ensures forall k | k in Form(pairs) :: Form(pairs)[k] != [] && forall v | v in Form(pairs)[k] :: Clean(v)
  {
    if pairs != [] {
      var init, last := pairs[..|pairs| - 1], pairs[|pairs| - 1];
      assert last in pairs;
      FormHoldsValues(init);
    }
  }

  /** No separator ever comes out of an encoded query: it cannot be escaped by this printer. */
  lemma EncodedQueryReadsClean(q: string)
    ensures var form := ParseQuery(Encode(q));
      forall k | k in form :: form[k] != [] && forall v | v in form[k] :: Clean(v)
  {
    EncodedQueryIsRead(q);
    ReadsClean(Split(q));
    FormHoldsValues(WildPairs(Split(q)));
  }
}
