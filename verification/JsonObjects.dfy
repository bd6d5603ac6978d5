/** JSON objects as the provider writes them: label maps with sorted keys, and flat records of
    text, number, null and label-map members. Reading a label map back accepts any spacing. */
module JsonObjects {
  import opened Wrappers
  import opened Json

  type Labels = map<string, string>

  // ----- Key order --------------------------------------------------------------------------

  /** The order of Python `str`: lexicographic by code point. */
  predicate Precedes(a: string, b: string)
  {
    a == "" || (b != "" && (a[0] < b[0] || (a[0] == b[0] && Precedes(a[1..], b[1..]))))
  }

  lemma PrecedesTotal(a: string, b: string)
    ensures Precedes(a, b) || Precedes(b, a)
    ensures Precedes(a, b) && Precedes(b, a) ==> a == b
  {
    if a != "" && b != "" && a[0] == b[0] {
      PrecedesTotal(a[1..], b[1..]);
      assert a == [a[0]] + a[1..] && b == [b[0]] + b[1..];
    }
  }

  lemma PrecedesTransitive(a: string, b: string, c: string)
    requires Precedes(a, b) && Precedes(b, c)
    ensures Precedes(a, c)
  {
    if a != "" && b != "" && c != "" && a[0] == b[0] == c[0] {
      PrecedesTransitive(a[1..], b[1..], c[1..]);
    }
  }

  predicate IsLeast(keys: set<string>, k: string)
  {
    k in keys && forall other :: other in keys ==> Precedes(k, other)
  }

  lemma LeastExists(keys: set<string>)
    requires keys != {}
    ensures exists k :: IsLeast(keys, k)
  {
    var x :| x in keys;
    var others := keys - {x};
    if others == {} {
      PrecedesTotal(x, x);
      assert keys == {x};
      assert IsLeast(keys, x);
    } else {
      LeastExists(others);
      var y :| IsLeast(others, y);
      PrecedesTotal(x, y);
      PrecedesTotal(x, x);
      if Precedes(x, y) {
        forall other | other in keys ensures Precedes(x, other) {
          if other != x { PrecedesTransitive(x, y, other); }
        }
        assert IsLeast(keys, x);
      } else {
        assert IsLeast(keys, y);
      }
    }
  }

  lemma LeastUnique(keys: set<string>, a: string, b: string)
    requires IsLeast(keys, a) && IsLeast(keys, b)
    ensures a == b
  {
    PrecedesTotal(a, b);
  }

  function Least(keys: set<string>): (k: string)
    requires keys != {}
    ensures IsLeast(keys, k)
  {
    LeastExists(keys);
    assert forall a, b :: IsLeast(keys, a) && IsLeast(keys, b) ==> a == b by {
      forall a, b | IsLeast(keys, a) && IsLeast(keys, b) ensures a == b { LeastUnique(keys, a, b); }
    }
    var k :| k in keys && IsLeast(keys, k);
    k
  }

  function SortedKeys(keys: set<string>): (ks: seq<string>)
    ensures forall k :: k in ks <==> k in keys
    ensures keys != {} ==> ks != []
  {
    if keys == {} then [] else
      var k := Least(keys);
      [k] + SortedKeys(keys - {k})
  }

  // ----- Writing: every writer takes the text that follows ------------------------------------

  function Members(m: Labels, ks: seq<string>, colon: string, comma: string, rest: string): string
    requires ks != [] && forall k :: k in ks ==> k in m
  {
    var tail := if |ks| == 1 then ['}'] + rest else comma + Members(m, ks[1..], colon, comma, rest);
    DumpString(ks[0], colon + DumpString(m[ks[0]], tail))
  }

  function DumpObject(m: Labels, colon: string, comma: string, rest: string): string
  {
    ['{'] + if m == map[] then ['}'] + rest else Members(m, SortedKeys(m.Keys), colon, comma, rest)
  }

  /** `json.dumps(labels, sort_keys=True)`: the `labels_json` column. */
  function DumpLabels(m: Labels): string
  {
    DumpObject(m, ": ", ", ", "")
  }

  // ----- Reading ----------------------------------------------------------------------------

  function SkipSpace(s: string): (r: string)
    ensures |r| <= |s|
  {
    if s != "" && s[0] in {' ', '\t', '\n', '\r'} then SkipSpace(s[1..]) else s
  }

  function ToString(t: Text): Option<string>
  {
    if forall i :: 0 <= i < |t| ==> !IsHigh(t[i]) && !IsLow(t[i]) then
      Some(seq(|t|, i requires 0 <= i < |t| && !IsHigh(t[i]) && !IsLow(t[i]) => t[i] as char))
    else None
  }

  function ParseString(s: string): (r: Scanned<string>)
    ensures r.Scan? ==> |r.rest| < |s|
  {
    if s == "" || s[0] != '\"' then NoScan else
      match ScanText(s[1..])
      case NoScan => NoScan
      case Scan(t, rest) => match ToString(t) { case None => NoScan case Some(v) => Scan(v, rest) }
  }

  /** A key, a colon and a value; the rest starts at the delimiter that follows. */
  function ParseMember(s: string): (r: Scanned<(string, string)>)
    ensures r.Scan? ==> |r.rest| < |s|
  {
    match ParseString(s)
    case NoScan => NoScan
    case Scan(key, afterKey) =>
      var colon := SkipSpace(afterKey);
      if colon == "" || colon[0] != ':' then NoScan else
        match ParseString(SkipSpace(colon[1..]))
        case NoScan => NoScan
        case Scan(value, afterValue) => Scan((key, value), SkipSpace(afterValue))
  }

  /** The members of an object up to its closing brace; a repeated key keeps its last value. */
  function ParseMembers(s: string): (r: Scanned<Labels>)
    decreases |s|
  {
    match ParseMember(s)
    case NoScan => NoScan
    case Scan((key, value), next) =>
      if next == "" then NoScan
      else if next[0] == '}' then Scan(map[key := value], next[1..])
      else if next[0] != ',' then NoScan
      else
        match ParseMembers(SkipSpace(next[1..]))
        case NoScan => NoScan
        case Scan(m, rest) => Scan(map[key := value] + m, rest)
  }

  function ParseObject(s: string): Scanned<Labels>
  {
    if s == "" || s[0] != '{' then NoScan else
      var inner := SkipSpace(s[1..]);
      if inner != "" && inner[0] == '}' then Scan(map[], inner[1..]) else ParseMembers(inner)
  }

  /** `json.loads` of the `labels_json` column. */
  function LoadLabels(s: string): Option<Labels>
  {
    match ParseObject(SkipSpace(s))
    case NoScan => None
    case Scan(m, rest) => if SkipSpace(rest) == "" then Some(m) else None
  }

  // ----- Round trips ------------------------------------------------------------------------

  lemma StringRoundTrips(s: string, rest: string)
    ensures ParseString(DumpString(s, rest)) == Scan(s, rest)
  {
    var t := CodePoints(s);
    assert !HasSplitPair(t);
    TextRoundTripsExactly(t, rest);
    assert ToString(t).Some? && ToString(t).value == s;
  }

  predicate Separators(colon: string, comma: string) {
    (colon == ":" && comma == ",") || (colon == ": " && comma == ", ")
  }

  lemma SkipToQuote(separator: string, s: string)
    requires separator in {":", ": ", ",", ", "}
    requires s != "" && s[0] == '\"'
    ensures (separator + s)[0] == separator[0]
    ensures SkipSpace((separator + s)[1..]) == s
  {
    if |separator| == 1 {
      assert (separator + s)[1..] == s;
    } else {
      assert (separator + s)[1..] == [' '] + s;
      assert ([' '] + s)[1..] == s;
    }
  }

  function Restrict(m: Labels, ks: seq<string>): Labels
    requires forall k :: k in ks ==> k in m
  {
    map k | k in ks :: m[k]
  }

  lemma DumpStringOpens(s: string, rest: string)
    ensures DumpString(s, rest) != "" && DumpString(s, rest)[0] == '\"'
  {
  }

  lemma NoSpaceToSkip(s: string)
    requires s != "" && s[0] !in {' ', '\t', '\n', '\r'}
    ensures SkipSpace(s) == s
  {
  }

  lemma MemberRoundTrip(key: string, value: string, colon: string, next: string)
    requires colon in {":", ": "} && next != "" && next[0] in {',', '}'}
    ensures ParseMember(DumpString(key, colon + DumpString(value, next))) == Scan((key, value), next)
  {
    hide DumpString, ParseString, SkipSpace;
    var text := DumpString(value, next);
    DumpStringOpens(value, next);
    StringRoundTrips(key, colon + text);
    SkipToQuote(colon, text);
    NoSpaceToSkip(colon + text);
    StringRoundTrips(value, next);
    NoSpaceToSkip(next);
  }

  lemma LastMember(key: string, value: string, s: string, rest: string)
    requires ParseMember(s) == Scan((key, value), ['}'] + rest)
    ensures ParseMembers(s) == Scan(map[key := value], rest)
  {
    assert (['}'] + rest)[1..] == rest;
  }

  lemma FirstMember(key: string, value: string, s: string, comma: string, tail: string, m: Labels, rest: string)
    requires comma in {",", ", "}
    requires ParseMember(s) == Scan((key, value), comma + tail)
    requires tail != "" && tail[0] == '\"' && ParseMembers(tail) == Scan(m, rest)
    ensures ParseMembers(s) == Scan(map[key := value] + m, rest)
  {
    SkipToQuote(comma, tail);
  }

  lemma RestrictCons(m: Labels, ks: seq<string>)
    requires ks != [] && forall k :: k in ks ==> k in m
    ensures Restrict(m, ks) == map[ks[0] := m[ks[0]]] + Restrict(m, ks[1..])
    ensures |ks| == 1 ==> Restrict(m, ks) == map[ks[0] := m[ks[0]]]
  {
    assert ks == [ks[0]] + ks[1..];
  }

  lemma {:induction false} MembersRoundTrip(m: Labels, ks: seq<string>, colon: string, comma: string, rest: string)
    requires ks != [] && forall k :: k in ks ==> k in m
    requires Separators(colon, comma)
    ensures Members(m, ks, colon, comma, rest)[0] == '\"'
    ensures ParseMembers(Members(m, ks, colon, comma, rest)) == Scan(Restrict(m, ks), rest)
    decreases |ks|
  {
    var key, value, s := ks[0], m[ks[0]], Members(m, ks, colon, comma, rest);
    RestrictCons(m, ks);
    if |ks| == 1 {
      MemberRoundTrip(key, value, colon, ['}'] + rest);
      LastMember(key, value, s, rest);
    } else {
      var tail := Members(m, ks[1..], colon, comma, rest);
      MembersRoundTrip(m, ks[1..], colon, comma, rest);
      MemberRoundTrip(key, value, colon, comma + tail);
      FirstMember(key, value, s, comma, tail, Restrict(m, ks[1..]), rest);
    }
  }

  lemma ParseBraced(inner: string, m: Labels, rest: string)
    requires inner != "" && inner[0] == '\"' && ParseMembers(inner) == Scan(m, rest)
    ensures ParseObject(['{'] + inner) == Scan(m, rest)
  {
    assert (['{'] + inner)[1..] == inner;
  }

  lemma ObjectRoundTrip(m: Labels, colon: string, comma: string, rest: string)
    requires Separators(colon, comma)
    ensures ParseObject(DumpObject(m, colon, comma, rest)) == Scan(m, rest)
  {
    if m == map[] {
      assert DumpObject(m, colon, comma, rest)[1..] == ['}'] + rest;
      assert (['}'] + rest)[1..] == rest;
    } else {
      assert m.Keys != {};
      var ks := SortedKeys(m.Keys);
      assert Restrict(m, ks) == m;
      MembersRoundTrip(m, ks, colon, comma, rest);
      ParseBraced(Members(m, ks, colon, comma, rest), m, rest);
    }
  }

  /** Reading the stored labels column gives back the label map that was written. */
  lemma LabelsRoundTrip(m: Labels)
    ensures LoadLabels(DumpLabels(m)) == Some(m)
  {
    ObjectRoundTrip(m, ": ", ", ", "");
  }

  // ----- Numbers ----------------------------------------------------------------------------

  function Digits(n: nat): (s: string)
    ensures s != "" && forall i :: 0 <= i < |s| ==> '0' <= s[i] <= '9'
  {
    var digit := ['0' + (n % 10) as char];
    if n < 10 then digit else Digits(n / 10) + digit
  }

  function DigitsValue(s: string): int
  {
    if s == "" then 0 else 10 * DigitsValue(s[..|s| - 1]) + (s[|s| - 1] as int - '0' as int)
  }

  lemma {:induction false} DigitsRoundTrip(n: nat)
    ensures DigitsValue(Digits(n)) == n
  {
    var s := Digits(n);
    if n >= 10 {
      DigitsRoundTrip(n / 10);
      assert s[..|s| - 1] == Digits(n / 10);
    }
  }

  function DumpNumber(n: int, rest: string): string
  {
    if n < 0 then ['-'] + (Digits(-n) + rest) else Digits(n) + rest
  }

  // ----- Records ----------------------------------------------------------------------------

  datatype Value = TextValue(s: string) | NumberValue(n: int) | NullValue | LabelsValue(m: Labels)

  function DumpValue(v: Value, rest: string): (s: string)
    ensures s != ""
  {
    match v
    case TextValue(s) => DumpString(s, rest)
    case NumberValue(n) => DumpNumber(n, rest)
    case NullValue => "null" + rest
    case LabelsValue(m) => DumpObject(m, ":", ",", rest)
  }

  /** The members of a record and its closing brace, with compact separators. */
  function DumpFields(names: seq<string>, values: seq<Value>): (s: string)
    requires |names| == |values|
    decreases |values|, 1
  {
    if names == [] then ['}'] else
      DumpString(names[0], [':'] + DumpValue(values[0], FieldsTail(names, values)))
  }

  function FieldsTail(names: seq<string>, values: seq<Value>): string
    requires |names| == |values| > 0
    decreases |values|, 0
  {
    if |names| == 1 then ['}'] else [','] + DumpFields(names[1..], values[1..])
  }

  predicate Ends(rest: string) {
    rest != "" && (rest[0] == ',' || rest[0] == '}')
  }

  lemma DigitsPrefix(a: nat, b: nat, r: string, q: string)
    requires Ends(r) && Ends(q) && Digits(a) + r == Digits(b) + q
    ensures a == b && r == q
  {
    var x, y := Digits(a), Digits(b);
    assert x == (x + r)[..|x|] && y == (y + q)[..|y|];
    assert r == (x + r)[|x|..] && q == (y + q)[|y|..];
    DigitsRoundTrip(a);
    DigitsRoundTrip(b);
  }

  lemma NumberPrefix(a: int, b: int, r: string, q: string)
    requires Ends(r) && Ends(q) && DumpNumber(a, r) == DumpNumber(b, q)
    ensures a == b && r == q
  {
    assert a < 0 <==> DumpNumber(a, r)[0] == '-';
    assert b < 0 <==> DumpNumber(b, q)[0] == '-';
    if a < 0 {
      assert DumpNumber(a, r)[1..] == Digits(-a) + r;
      assert DumpNumber(b, q)[1..] == Digits(-b) + q;
      DigitsPrefix(-a, -b, r, q);
    } else {
      DigitsPrefix(a, b, r, q);
    }
  }

  lemma ValueKind(v: Value, rest: string)
    ensures v.TextValue? <==> DumpValue(v, rest)[0] == '\"'
    ensures v.NullValue? <==> DumpValue(v, rest)[0] == 'n'
    ensures v.LabelsValue? <==> DumpValue(v, rest)[0] == '{'
  {
    if v.NumberValue? {
      assert DumpNumber(v.n, rest)[0] == '-' || '0' <= DumpNumber(v.n, rest)[0] <= '9';
    }
  }

  /** A dumped value followed by a delimiter: the text determines both the value and the rest. */
  lemma ValuePrefix(v: Value, w: Value, r: string, q: string)
    requires Ends(r) && Ends(q)
    requires DumpValue(v, r) == DumpValue(w, q)
    ensures v == w && r == q
  {
    ValueKind(v, r);
    ValueKind(w, q);
    match v
    case TextValue(s) =>
      StringRoundTrips(s, r);
      StringRoundTrips(w.s, q);
    case NumberValue(n) =>
      NumberPrefix(n, w.n, r, q);
    case NullValue =>
      assert r == ("null" + r)[4..] && q == ("null" + q)[4..];
    case LabelsValue(m) =>
      ObjectRoundTrip(m, ":", ",", r);
      ObjectRoundTrip(w.m, ":", ",", q);
  }

  lemma FirstFieldInjective(name: string, v: Value, w: Value, r: string, q: string)
    requires Ends(r) && Ends(q)
    requires DumpString(name, [':'] + DumpValue(v, r)) == DumpString(name, [':'] + DumpValue(w, q))
    ensures v == w && r == q
  {
    var a, b := DumpValue(v, r), DumpValue(w, q);
    StringRoundTrips(name, [':'] + a);
    StringRoundTrips(name, [':'] + b);
    assert a == ([':'] + a)[1..] == ([':'] + b)[1..] == b;
    ValuePrefix(v, w, r, q);
  }

  /** Two records with the same member names and the same text have the same member values. */
  lemma {:induction false} FieldsInjective(names: seq<string>, values: seq<Value>, others: seq<Value>)
    requires |names| == |values| == |others|
    requires DumpFields(names, values) == DumpFields(names, others)
    ensures values == others
    decreases |names|
  {
    if names != [] {
      var r, q := FieldsTail(names, values), FieldsTail(names, others);
      FirstFieldInjective(names[0], values[0], others[0], r, q);
      if |names| > 1 {
        assert DumpFields(names[1..], values[1..]) == r[1..];
        assert DumpFields(names[1..], others[1..]) == q[1..];
        FieldsInjective(names[1..], values[1..], others[1..]);
      }
      assert values == [values[0]] + values[1..] && others == [others[0]] + others[1..];
    }
  }

  /** A record of named members as one JSON object. */
  function DumpRecord(names: seq<string>, values: seq<Value>): string
    requires |names| == |values|
  {
    ['{'] + DumpFields(names, values)
  }

  lemma RecordInjective(names: seq<string>, values: seq<Value>, others: seq<Value>)
    requires |names| == |values| == |others|
    requires DumpRecord(names, values) == DumpRecord(names, others)
    ensures values == others
  {
    assert DumpFields(names, values) == DumpRecord(names, values)[1..] == DumpFields(names, others);
    FieldsInjective(names, values, others);
  }
}
