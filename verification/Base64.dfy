/** The cursor codec: the URL-safe alphabet of RFC 4648, section 5, without padding, as Go's
    `base64.RawURLEncoding` writes and reads it. A character stands for one byte of a Go string. */
module Base64 {
  import opened Prelude

  predicate IsBytes(s: string) {
    forall i | 0 <= i < |s| :: s[i] as int < 256
  }

  function Letter(v: nat): (c: char)
    requires v < 64
  {
    if v < 26 then ('A' as int + v) as char
    else if v < 52 then ('a' as int + (v - 26)) as char
    else if v < 62 then ('0' as int + (v - 52)) as char
    else if v == 62 then '-' else '_'
  }

  function Sextet(c: char): (v: Option<nat>)
    ensures v.Some? ==> v.value < 64
  {
    if 'A' <= c <= 'Z' then Some(c as int - 'A' as int)
    else if 'a' <= c <= 'z' then Some(c as int - 'a' as int + 26)
    else if '0' <= c <= '9' then Some(c as int - '0' as int + 52)
    else if c == '-' then Some(62)
    else if c == '_' then Some(63)
    else None
  }

  /** Three bytes as four letters of six bits each. */
  function Group(a: char, b: char, c: char): (t: string)
    requires a as int < 256 && b as int < 256 && c as int < 256
    ensures |t| == 4
  {
    var (p, q, r) := (a as int, b as int, c as int);
    [Letter(p / 4), Letter(p % 4 * 16 + q / 16), Letter(q % 16 * 4 + r / 64), Letter(r % 64)]
  }

  /** One or two bytes at the end give the letters their bits reach. */
  function Encode(s: string): (t: string)
    requires IsBytes(s)
  {
    if s == "" then ""
    else if |s| == 1 then Group(s[0], ZERO, ZERO)[..2]
    else if |s| == 2 then Group(s[0], s[1], ZERO)[..3]
    else Group(s[0], s[1], s[2]) + Encode(s[3..])
  }

  const ZERO: char := 0 as char

  function WithoutNewlines(t: string): (r: string) {
    if t == "" then ""
    else if t[0] == '\n' || t[0] == '\r' then WithoutNewlines(t[1..])
    else [t[0]] + WithoutNewlines(t[1..])
  }

  /** Four letters as three bytes. */
  function Ungroup(t: string): (s: Option<string>)
    requires |t| == 4
    ensures s.Some? ==> |s.value| == 3
  {
    match (Sextet(t[0]), Sextet(t[1]), Sextet(t[2]), Sextet(t[3]))
    case (Some(p), Some(q), Some(r), Some(v)) =>
      Some([(p * 4 + q / 16) as char, (q % 16 * 16 + r / 4) as char, (r % 4 * 64 + v) as char])
    case _ => None
  }

  function Front(s: Option<string>, n: nat): (r: Option<string>)
    requires s.Some? ==> n <= |s.value|
  {
    if s.Some? then Some(s.value[..n]) else None
  }

  /** A letter outside the alphabet, or a single one at the end, is an error; stray low bits of the
      last letter are not. */
  function DecodeLetters(t: string): (s: Option<string>) {
    if t == "" then Some("")
    else if |t| == 1 then None
    else if |t| == 2 then Front(Ungroup(t + "AA"), 1)
    else if |t| == 3 then Front(Ungroup(t + "A"), 2)
    else
      match (Ungroup(t[..4]), DecodeLetters(t[4..]))
      case (Some(first), Some(rest)) => Some(first + rest)
      case _ => None
  }

  function Decode(t: string): (s: Option<string>) {
    DecodeLetters(WithoutNewlines(t))
  }

  predicate IsLetters(t: string) {
    forall i | 0 <= i < |t| :: Sextet(t[i]).Some?
  }

  lemma LetterSextet(v: nat)
    requires v < 64
    ensures Sextet(Letter(v)) == Some(v)
  {
  }

  lemma GroupIsLetters(a: char, b: char, c: char)
    requires a as int < 256 && b as int < 256 && c as int < 256
    ensures IsLetters(Group(a, b, c))
  {
  }

  lemma {:induction false} EncodeGivesLetters(s: string)
    requires IsBytes(s)
    ensures IsLetters(Encode(s)) && (s != "" ==> Encode(s) != "")
  {
    if s != "" {
      GroupIsLetters(s[0], if |s| > 1 then s[1] else ZERO, if |s| > 2 then s[2] else ZERO);
    }
    if |s| > 2 {
      EncodeGivesLetters(s[3..]);
    }
  }

  lemma {:induction false} NoNewlines(t: string)
    requires IsLetters(t)
    ensures WithoutNewlines(t) == t
  {
    if t != "" {
      assert Sextet(t[0]).Some?;
      NoNewlines(t[1..]);
    }
  }

  /** The four groups of six bits. */
  lemma Regrouped(a: char, b: char, c: char) returns (p: nat, q: nat, r: nat, v: nat)
    requires a as int < 256 && b as int < 256 && c as int < 256
    ensures p < 64 && q < 64 && r < 64 && v < 64 && Group(a, b, c) == [Letter(p), Letter(q), Letter(r), Letter(v)]
    ensures p * 4 + q / 16 == a as int && q % 16 * 16 + r / 4 == b as int && r % 4 * 64 + v == c as int
  {
    p, q := a as int / 4, a as int % 4 * 16 + b as int / 16;
    r, v := b as int % 16 * 4 + c as int / 64, c as int % 64;
  }

  lemma UngroupedLetters(p: nat, q: nat, r: nat, v: nat, a: char, b: char, c: char)
    requires p < 64 && q < 64 && r < 64 && v < 64
    requires p * 4 + q / 16 == a as int && q % 16 * 16 + r / 4 == b as int && r % 4 * 64 + v == c as int
    ensures Ungroup([Letter(p), Letter(q), Letter(r), Letter(v)]) == Some([a, b, c])
  {
    LetterSextet(p);
    LetterSextet(q);
    LetterSextet(r);
    LetterSextet(v);
  }

  /** The bits of three bytes survive the regrouping. */
  lemma GroupRoundTrip(a: char, b: char, c: char)
    requires a as int < 256 && b as int < 256 && c as int < 256
    ensures Ungroup(Group(a, b, c)) == Some([a, b, c])
  {
    var p, q, r, v := Regrouped(a, b, c);
    UngroupedLetters(p, q, r, v, a, b, c);
  }

  lemma TwoLetters(group: string, bytes: string)
    requires |group| == 4 && group[2] == 'A' && group[3] == 'A' && Ungroup(group) == Some(bytes)
    ensures DecodeLetters(group[..2]) == Some(bytes[..1])
  {
    assert group[..2] + "AA" == group;
  }

  lemma ThreeLetters(group: string, bytes: string)
    requires |group| == 4 && group[3] == 'A' && Ungroup(group) == Some(bytes)
    ensures DecodeLetters(group[..3]) == Some(bytes[..2])
  {
    assert group[..3] + "A" == group;
  }

  lemma LastLetters(a: char, b: char)
    requires a as int < 256 && b as int < 256
    ensures Group(a, b, ZERO)[3] == 'A' && (b == ZERO ==> Group(a, b, ZERO)[2] == 'A')
  {
  }

  lemma OneByte(a: char)
    requires a as int < 256
    ensures DecodeLetters(Group(a, ZERO, ZERO)[..2]) == Some([a])
  {
    GroupRoundTrip(a, ZERO, ZERO);
    LastLetters(a, ZERO);
    TwoLetters(Group(a, ZERO, ZERO), [a, ZERO, ZERO]);
    assert [a, ZERO, ZERO][..1] == [a];
  }

  lemma TwoBytes(a: char, b: char)
    requires a as int < 256 && b as int < 256
    ensures DecodeLetters(Group(a, b, ZERO)[..3]) == Some([a, b])
  {
    GroupRoundTrip(a, b, ZERO);
    LastLetters(a, b);
    ThreeLetters(Group(a, b, ZERO), [a, b, ZERO]);
    assert [a, b, ZERO][..2] == [a, b];
  }

  lemma GroupFirst(group: string, rest: string)
    requires |group| == 4 && Ungroup(group).Some? && DecodeLetters(rest).Some?
    ensures DecodeLetters(group + rest) == Some(Ungroup(group).value + DecodeLetters(rest).value)
  {
    assert (group + rest)[..4] == group && (group + rest)[4..] == rest;
  }

  lemma EncodeStep(s: string)
    requires IsBytes(s) && |s| > 2
    ensures Encode(s) == Group(s[0], s[1], s[2]) + Encode(s[3..])
  {
  }

  lemma DecodeStep(s: string, group: string, rest: string)
    requires |s| > 2 && |group| == 4 && Ungroup(group) == Some(s[..3]) && DecodeLetters(rest) == Some(s[3..])
    ensures DecodeLetters(group + rest) == Some(s)
  {
    GroupFirst(group, rest);
    assert s == s[..3] + s[3..];
  }

  lemma FirstGroup(s: string) returns (group: string)
    requires IsBytes(s) && |s| > 2
    ensures |group| == 4 && Ungroup(group) == Some(s[..3]) && Encode(s) == group + Encode(s[3..])
  {
    group := Group(s[0], s[1], s[2]);
    GroupRoundTrip(s[0], s[1], s[2]);
    EncodeStep(s);
    assert s[..3] == [s[0], s[1], s[2]];
  }

  lemma OneLetterPair(s: string) returns (pair: string)
    requires IsBytes(s) && |s| == 1
    ensures Encode(s) == pair && DecodeLetters(pair) == Some([s[0]])
  {
    pair := Group(s[0], ZERO, ZERO)[..2];
    OneByte(s[0]);
  }

  lemma OneLetterTriple(s: string) returns (triple: string)
    requires IsBytes(s) && |s| == 2
    ensures Encode(s) == triple && DecodeLetters(triple) == Some([s[0], s[1]])
  {
    triple := Group(s[0], s[1], ZERO)[..3];
    TwoBytes(s[0], s[1]);
  }

  lemma {:induction false} LettersRoundTrip(s: string)
    requires IsBytes(s)
    ensures DecodeLetters(Encode(s)) == Some(s)
  {
    if s == "" {
      assert Encode(s) == "";
    } else if |s| == 1 {
      var pair := OneLetterPair(s);
      assert s == [s[0]];
    } else if |s| == 2 {
      var triple := OneLetterTriple(s);
      assert s == [s[0], s[1]];
    } else {
      var group := FirstGroup(s);
      LettersRoundTrip(s[3..]);
      DecodeStep(s, group, Encode(s[3..]));
    }
  }

  /** Decoding an encoded identifier gives it back. */
  lemma RoundTrip(s: string)
    requires IsBytes(s)
    ensures Decode(Encode(s)) == Some(s)
  {
    EncodeGivesLetters(s);
    NoNewlines(Encode(s));
    LettersRoundTrip(s);
  }
}
