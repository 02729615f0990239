/** Records that are lists of bytes, numbers and texts (util/coding.cc), taken
    apart digit by digit. */
module Tokens {
  import opened Keys
  import opened Coding
  import opened Digits

  datatype Kind = AByte | ANumber32 | ANumber64 | AText

  datatype Token = Byte(b: byte) | Number32(n: nat) | Number64(n: nat) | Text(bytes: Bytes)

  function KindOf(token: Token): Kind {
    match token
    case Byte(_) => AByte
    case Number32(_) => ANumber32
    case Number64(_) => ANumber64
    case Text(_) => AText
  }

  /** A number of at most `most` base-128 digits, cut to its width. */
  function TakeNumber(s: Bytes, most: nat, width: nat): Option<Taken<nat>>
    requires width > 0
  {
    match Base128(s)
    case None => None
    case Some(t) => if |s| - |t.rest| > most then None else Some(Taken(t.value % width, t.rest))
  }

  function Take(kind: Kind, s: Bytes): Option<Taken<Token>> {
    match kind
    case AByte => if s == [] then None else Some(Taken(Byte(s[0]), s[1..]))
    case ANumber32 => (match TakeNumber(s, 5, 4294967296) case None => None case Some(t) => Some(Taken(Number32(t.value), t.rest)))
    case ANumber64 => (match TakeNumber(s, 10, 18446744073709551616) case None => None case Some(t) => Some(Taken(Number64(t.value), t.rest)))
    case AText =>
      match TakeNumber(s, 5, 4294967296)
      case None => None
      case Some(t) => if t.value > |t.rest| then None else Some(Taken(Text(t.rest[..t.value]), t.rest[t.value..]))
  }

  /** The bytes begin with these tokens, and the rest follows. */
  ghost predicate Spells(s: Bytes, tokens: seq<Token>, rest: Bytes)
    decreases |tokens|
  {
    if tokens == [] then s == rest
    else
      var t := Take(KindOf(tokens[0]), s);
      t.Some? && t.value.value == tokens[0] && Spells(t.value.rest, tokens[1..], rest)
  }

  // ----- the model's parsers take the same

  lemma {:induction false} VarintAtIs(s: Bytes, most: nat)
    ensures var t := Base128(s);
            VarintAt(s, most) == if t.Some? && |s| - |t.value.rest| <= most then Some(Parsed(t.value.value, |s| - |t.value.rest|)) else None
    decreases |s|
  {
    if s != [] {
      Shorter(s);
      Shorter(s[1..]);
      if most > 0 && s[0] >= 128 {
        VarintAtIs(s[1..], most - 1);
      }
    }
  }

  lemma Shorter(s: Bytes)
    ensures Base128(s).Some? ==> |Base128(s).value.rest| < |s|
  {
  }

  lemma {:induction false} RestIs(s: Bytes)
    requires Base128(s).Some?
    ensures |Base128(s).value.rest| < |s| && s[|s| - |Base128(s).value.rest|..] == Base128(s).value.rest
  {
    if s[0] >= 128 {
      RestIs(s[1..]);
    }
  }

  lemma NumberIs(s: Bytes, most: nat, width: nat)
    requires width > 0
    ensures VarintAt(s, most).Some? ==> VarintAt(s, most).value.used <= |s|
    ensures TakeNumber(s, most, width) ==
            match VarintAt(s, most)
            case None => None
            case Some(p) => Some(Taken(p.value % width, s[p.used..]))
  {
    hide Base128; hide VarintAt;
    VarintAtIs(s, most);
    if Base128(s).Some? {
      RestIs(s);
    }
  }

  lemma TextIs(s: Bytes)
    ensures Take(AText, s) ==
            match GetSlice(s)
            case None => None
            case Some(c) => Some(Taken(Text(c.data), c.rest))
  {
    hide TakeNumber; hide VarintAt;
    NumberIs(s, 5, 4294967296);
  }

  // ----- so does what is written

  lemma WrittenNumber(v: nat, most: nat, width: nat, rest: Bytes)
    requires (most == 5 && width == 4294967296 && v < TWO32) || (most == 10 && width == 18446744073709551616 && v < TWO64)
    ensures TakeNumber(Varint(v) + rest, most, width) == Some(Taken(v, rest))
  {
    hide Varint; hide Power128; hide Base128;
    VarintIs(v, rest);
    ShortVarint(v, most);
    Whole(v, width);
  }

  lemma ShortVarint(v: nat, most: nat)
    requires (most == 5 && v < TWO32) || (most == 10 && v < TWO64)
    ensures |Varint(v)| <= most
  {
    hide Varint; hide Power128;
    Limits();
    VarintLength(v, most);
  }

  lemma Whole(v: nat, width: nat)
    requires v < width
    ensures v % width == v
  {
  }

  // ----- lists of tokens

  lemma OneToken(s: Bytes, a: Token, rest: Bytes)
    ensures Spells(s, [a], rest) <==> Take(KindOf(a), s) == Some(Taken(a, rest))
  {
    hide Take;
    assert [a][1..] == [];
  }

  lemma MoreTokens(s: Bytes, a: Token, more: seq<Token>, rest: Bytes)
    ensures Spells(s, [a] + more, rest) <==>
            var t := Take(KindOf(a), s);
            t.Some? && t.value.value == a && Spells(t.value.rest, more, rest)
  {
    hide Take;
    assert ([a] + more)[0] == a && ([a] + more)[1..] == more;
  }
}
