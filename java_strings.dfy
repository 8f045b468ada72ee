/**
 * The pieces of java.lang that the parsers and adapters rely on: String.split (on a literal
 * separator and on runs of whitespace), startsWith, Integer.parseInt and Integer.toString,
 * Character.getNumericValue and Boolean.parseBoolean. Strings are sequences of characters.
 */
module JavaStrings {
  import opened Wrappers
  import opened JavaInts

  /** The characters of the regular-expression class `\s`: space, tab, line feed, vertical tab, form feed, carriage return. */
  predicate IsWhitespace(c: char)
  {
    c == ' ' || 9 <= c as int <= 13
  }

  predicate IsDigit(c: char)
  {
    '0' <= c <= '9'
  }

  predicate StartsWith(s: string, prefix: string)
  {
    |prefix| <= |s| && s[..|prefix|] == prefix
  }

  /** split drops the empty strings at the end of its result. */
  function StripTrailingEmpty(parts: seq<string>): (r: seq<string>)
    ensures |r| <= |parts| && r == parts[..|r|]
    ensures r != [] ==> r[|r| - 1] != ""
    ensures forall k | |r| <= k < |parts| :: parts[k] == ""
  {
    if parts != [] && parts[|parts| - 1] == "" then StripTrailingEmpty(parts[..|parts| - 1]) else parts
  }

  predicate OccursAt(s: string, sep: string, k: nat)
  {
    k + |sep| <= |s| && s[k..k + |sep|] == sep
  }

  /** The first occurrence of `sep` at or after `from`, or |s| when there is none. */
  function FindFrom(s: string, sep: string, from: nat): (r: nat)
    requires 0 < |sep| && from <= |s|
    ensures from <= r <= |s|
    ensures r < |s| ==> OccursAt(s, sep, r)
    ensures forall k | from <= k < r :: !OccursAt(s, sep, k)
    decreases |s| - from
  {
    if |s| < from + |sep| then |s|
    else if s[from..from + |sep|] == sep then from
    else FindFrom(s, sep, from + 1)
  }

  /** The strings between successive, non-overlapping occurrences of `sep`, left to right. */
  function LiteralPieces(s: string, sep: string): seq<string>
    requires 0 < |sep|
    decreases |s|
  {
    var k := FindFrom(s, sep, 0);
    if k == |s| then [s] else [s[..k]] + LiteralPieces(s[k + |sep|..], sep)
  }

  /** String.split with a separator that has no regular-expression meaning (",", ", ", "="). */
  function SplitOn(s: string, sep: string): seq<string>
    requires 0 < |sep|
  {
    if FindFrom(s, sep, 0) == |s| then [s] else StripTrailingEmpty(LiteralPieces(s, sep))
  }

  /** The first whitespace character at or after `from`, or |s|. */
  function FirstSpaceFrom(s: string, from: nat): (r: nat)
    requires from <= |s|
    ensures from <= r <= |s| && (r < |s| ==> IsWhitespace(s[r]))
    ensures forall k | from <= k < r :: !IsWhitespace(s[k])
    decreases |s| - from
  {
    if from == |s| || IsWhitespace(s[from]) then from else FirstSpaceFrom(s, from + 1)
  }

  /** The end of the run of whitespace that starts at `from`. */
  function SpaceRunEnd(s: string, from: nat): (r: nat)
    requires from <= |s|
    ensures from <= r <= |s| && (r < |s| ==> !IsWhitespace(s[r]))
    ensures forall k | from <= k < r :: IsWhitespace(s[k])
    decreases |s| - from
  {
    if from == |s| || !IsWhitespace(s[from]) then from else SpaceRunEnd(s, from + 1)
  }

  /** The strings between successive maximal runs of whitespace. */
  function SpacePieces(s: string): seq<string>
    decreases |s|
  {
    var k := FirstSpaceFrom(s, 0);
    if k == |s| then [s]
    else
      var j := SpaceRunEnd(s, k);
      [s[..k]] + SpacePieces(s[j..])
  }

  /** String.split("\\s+"). */
  function SplitOnWhitespace(s: string): seq<string>
  {
    if FirstSpaceFrom(s, 0) == |s| then [s] else StripTrailingEmpty(SpacePieces(s))
  }

  /** An occurrence of `sep` starts with its first character. */
  lemma NoOccurrenceAt(s: string, sep: string, k: nat)
    requires 0 < |sep| && k < |s| && s[k] != sep[0]
    ensures !OccursAt(s, sep, k)
  {
    if k + |sep| <= |s| {
      assert s[k..k + |sep|][0] == s[k];
    }
  }

  /** `sep` does not occur in a string that lacks its first character. */
  lemma NotFound(x: string, sep: string)
    requires 0 < |sep| && sep[0] !in x
    ensures FindFrom(x, sep, 0) == |x|
  {
    forall k | 0 <= k < |x|
      ensures !OccursAt(x, sep, k)
    {
      assert x[k] in x;
      NoOccurrenceAt(x, sep, k);
    }
  }

  /** Two fields around a separator whose first character occurs in neither come back apart. */
  lemma SplitOnTwoFields(x: string, sep: string, y: string)
    requires 0 < |sep| && sep[0] !in x && sep[0] !in y && y != ""
    ensures SplitOn(x + sep + y, sep) == [x, y]
  {
    var s := x + sep + y;
    assert s[|x|..|x| + |sep|] == sep;
    assert OccursAt(s, sep, |x|);
    forall k | 0 <= k < |x|
      ensures !OccursAt(s, sep, k)
    {
      assert s[k] == x[k] && x[k] in x;
      NoOccurrenceAt(s, sep, k);
    }
    assert FindFrom(s, sep, 0) == |x|;
    assert s[..|x|] == x && s[|x| + |sep|..] == y;
    NotFound(y, sep);
    assert LiteralPieces(y, sep) == [y];
    assert LiteralPieces(s, sep) == [x, y];
    assert StripTrailingEmpty([x, y]) == [x, y];
  }

  /** A string without the separator's first character is not split at all. */
  lemma SplitOnNothing(x: string, sep: string)
    requires 0 < |sep| && sep[0] !in x
    ensures SplitOn(x, sep) == [x]
  {
    NotFound(x, sep);
  }

  /** A string without whitespace is one piece. */
  lemma NoSpaceFound(x: string)
    requires forall c | c in x :: !IsWhitespace(c)
    ensures FirstSpaceFrom(x, 0) == |x|
  {
    forall k | 0 <= k < |x|
      ensures !IsWhitespace(x[k])
    {
      assert x[k] in x;
    }
  }

  /** Two tokens separated by one space, with no whitespace inside, split into exactly those tokens. */
  lemma SplitOnWhitespaceTwoTokens(x: string, y: string)
    requires forall c | c in x :: !IsWhitespace(c)
    requires forall c | c in y :: !IsWhitespace(c)
    requires y != ""
    ensures SplitOnWhitespace(x + " " + y) == [x, y]
  {
    var s := x + " " + y;
    forall k | 0 <= k < |x|
      ensures !IsWhitespace(s[k])
    {
      assert s[k] == x[k] && x[k] in x;
    }
    assert IsWhitespace(s[|x|]);
    var k := FirstSpaceFrom(s, 0);
    assert k == |x|;
    assert s[|x| + 1] == y[0] && y[0] in y;
    var j := SpaceRunEnd(s, k);
    assert j == |x| + 1;
    assert s[..k] == x && s[j..] == y;
    NoSpaceFound(y);
    assert SpacePieces(y) == [y];
  }

  function DigitChar(d: nat): (c: char)
    requires d < 10
    ensures IsDigit(c)
  {
    ('0' as int + d) as char
  }

  /** The decimal digits of a natural number, most significant first, with no leading zero. */
  function NatToDigits(n: nat): string
    decreases n
  {
    if n < 10 then [DigitChar(n)] else NatToDigits(n / 10) + [DigitChar(n % 10)]
  }

  /** Integer.toString. */
  function IntToString(i: int32): string
  {
    if i < 0 then "-" + NatToDigits(-(i as int)) else NatToDigits(i)
  }

  predicate AllDigits(s: string)
  {
    forall c | c in s :: IsDigit(c)
  }

  /** The value of a string of decimal digits. */
  function DigitsValue(s: string): nat
    requires AllDigits(s)
  {
    if s == [] then 0
    else
      assert forall c | c in s[..|s| - 1] :: c in s;
      assert s[|s| - 1] in s;
      DigitsValue(s[..|s| - 1]) * 10 + (s[|s| - 1] as int - '0' as int)
  }

  /**
   * Integer.parseInt: an optional sign and at least one decimal digit, with a value in the `int`
   * range; `None` is a NumberFormatException.
   */
  function ParseInt(s: string): Option<int32>
  {
    var negative := |s| > 0 && s[0] == '-';
    var body := if |s| > 0 && (s[0] == '-' || s[0] == '+') then s[1..] else s;
    if body == [] || !AllDigits(body) then None
    else
      var v: int := if negative then -(DigitsValue(body) as int) else DigitsValue(body);
      if MIN_INT <= v <= MAX_INT then Some(v) else None
  }

  lemma {:induction false} NatToDigitsRoundTrip(n: nat)
    ensures NatToDigits(n) != [] && AllDigits(NatToDigits(n))
    ensures DigitsValue(NatToDigits(n)) == n
    decreases n
  {
    if n >= 10 {
      NatToDigitsRoundTrip(n / 10);
      var s := NatToDigits(n);
      assert s[..|s| - 1] == NatToDigits(n / 10);
    }
  }

  /** Integer.parseInt reads back what Integer.toString writes, for every `int`. */
  lemma IntToStringRoundTrip(i: int32)
    ensures ParseInt(IntToString(i)) == Some(i)
    ensures IntToString(i) != []
    ensures forall c | c in IntToString(i) :: IsDigit(c) || c == '-'
  {
    if i < 0 {
      NegativeRoundTrip(i);
    } else {
      NonNegativeRoundTrip(i);
    }
  }

  lemma NegativeRoundTrip(i: int32)
    requires i < 0
    ensures ParseInt(IntToString(i)) == Some(i)
    ensures forall c | c in IntToString(i) :: IsDigit(c) || c == '-'
  {
    var digits := NatToDigits(-(i as int));
    NatToDigitsRoundTrip(-(i as int));
    var s := IntToString(i);
    assert s == "-" + digits && s[0] == '-' && s[1..] == digits;
    assert forall c | c in s :: c == '-' || c in digits;
  }

  lemma NonNegativeRoundTrip(i: int32)
    requires i >= 0
    ensures ParseInt(IntToString(i)) == Some(i)
    ensures forall c | c in IntToString(i) :: IsDigit(c)
  {
    var digits := NatToDigits(i);
    NatToDigitsRoundTrip(i);
    assert IntToString(i) == digits;
    assert digits[0] in digits;
  }

  /**
   * Character.getNumericValue on ASCII digits and letters, the characters a typed square name uses.
   * Every other character gives -1 here; Java's Unicode numeric values (a fraction or a Roman numeral,
   * say) are not modelled.
   */
  function NumericValue(c: char): int
  {
    if '0' <= c <= '9' then c as int - '0' as int
    else if 'a' <= c <= 'z' then c as int - 'a' as int + 10
    else if 'A' <= c <= 'Z' then c as int - 'A' as int + 10
    else -1
  }

  /** Boolean.parseBoolean: "true" in any mix of cases. */
  predicate ParseBoolean(s: string)
  {
    |s| == 4 && (s[0] == 't' || s[0] == 'T') && (s[1] == 'r' || s[1] == 'R') &&
    (s[2] == 'u' || s[2] == 'U') && (s[3] == 'e' || s[3] == 'E')
  }
}

/**
 * Gson's tree model, as far as the adapters use it: an object is an insertion-ordered list of
 * named members (JsonObject keeps insertion order, and `add` of an existing name replaces its
 * value in place).
 */
module Json {
  import opened Wrappers
  import opened JavaStrings

  datatype Json =
    | JNull
    | JBool(b: bool)
    | JNumber(text: string)
    | JString(s: string)
    | JObject(members: seq<(string, Json)>)

  /** JsonObject.get: the member's value, or `None` (Java null) when the name is absent. */
  function Member(members: seq<(string, Json)>, name: string): Option<Json>
  {
    if members == [] then None
    else if members[0].0 == name then Some(members[0].1)
    else Member(members[1..], name)
  }

  /** A name is found exactly when some member carries it, and the value found is that member's. */
  lemma {:induction false} MemberFound(members: seq<(string, Json)>, name: string)
    ensures Member(members, name).Some? <==> exists i | 0 <= i < |members| :: members[i].0 == name
    ensures Member(members, name).Some? ==> exists i | 0 <= i < |members| :: members[i] == (name, Member(members, name).value)
  {
    if members != [] && members[0].0 != name {
      MemberFound(members[1..], name);
      assert forall i | 0 <= i < |members| - 1 :: members[1..][i] == members[i + 1];
      assert forall i | 0 < i < |members| :: members[i] == members[1..][i - 1];
    }
  }

  /** A name no member carries is not found. */
  lemma {:induction false} MemberAbsent(members: seq<(string, Json)>, name: string)
    requires forall i | 0 <= i < |members| :: members[i].0 != name
    ensures Member(members, name) == None
  {
    MemberFound(members, name);
  }

  /** The first member with a name is the one looked up. */
  lemma {:induction false} MemberAt(members: seq<(string, Json)>, i: nat)
    requires i < |members| && forall k | 0 <= k < i :: members[k].0 != members[i].0
    ensures Member(members, members[i].0) == Some(members[i].1)
  {
    if i > 0 {
      assert forall k | 0 <= k < i - 1 :: members[1..][k] == members[k + 1];
      MemberAt(members[1..], i - 1);
    }
  }

  /** JsonObject.add / addProperty: replace the member's value in place, or append the member. */
  function Add(members: seq<(string, Json)>, name: string, value: Json): (r: seq<(string, Json)>)
    ensures Member(r, name) == Some(value)
    ensures forall other | other != name :: Member(r, other) == Member(members, other)
  {
    if members == [] then [(name, value)]
    else if members[0].0 == name then [(name, value)] + members[1..]
    else [members[0]] + Add(members[1..], name, value)
  }

  /** JsonElement.getAsString: primitives give their text; null and objects throw. */
  function AsString(j: Json): Option<string>
  {
    match j
    case JString(s) => Some(s)
    case JBool(b) => Some(if b then "true" else "false")
    case JNumber(text) => Some(text)
    case _ => None
  }

  /** JsonElement.getAsBoolean: a string or number is read with Boolean.parseBoolean; null and objects throw. */
  function AsBoolean(j: Json): Option<bool>
  {
    match j
    case JBool(b) => Some(b)
    case JString(s) => Some(ParseBoolean(s))
    case JNumber(text) => Some(ParseBoolean(text))
    case _ => None
  }

  /** JsonElement.getAsJsonObject: throws unless the element is an object. */
  function AsObject(j: Json): Option<seq<(string, Json)>>
  {
    if j.JObject? then Some(j.members) else None
  }
}
