/**
  The member strings of the Redis input-token sets: `request_id|tokens`, built
  with Lua's `tostring` and read back with the pattern `|(%d+)$`.
 */
module TokenCodec {
  import opened Options

  /** From this value on, Lua's `%.14g` switches to scientific notation. */
  const LUA_PLAIN_LIMIT: nat := 100_000_000_000_000

  predicate IsDigit(c: char) {
    '0' <= c <= '9'
  }

  predicate AllDigits(s: string) {
    forall i :: 0 <= i < |s| ==> IsDigit(s[i])
  }

  function DigitChar(d: nat): (c: char)
    requires d < 10
    ensures IsDigit(c) && c as int == '0' as int + d
  {
    ('0' as int + d) as char
  }

  function Decimal(n: nat): (s: string)
    ensures s != [] && AllDigits(s)
  {
    if n < 10 then [DigitChar(n)] else Decimal(n / 10) + [DigitChar(n % 10)]
  }

  /** `tonumber` on a string of decimal digits. */
  function Value(s: string): nat
    requires AllDigits(s)
  {
    if s == [] then 0 else 10 * Value(s[..|s| - 1]) + (s[|s| - 1] as int - '0' as int)
  }

  /** The shape `%.14g` gives a large number: `d.ddddde+XX`. */
  function Scientific(n: nat): (s: string)
    requires LUA_PLAIN_LIMIT <= n
    ensures 'e' in s && '|' !in s
  {
    var digits := Decimal(n);
    digits[..1] + "." + digits[1..] + "e+" + Decimal(|digits| - 1)
  }

  /** Lua's `tostring` of a non-negative integral number. */
  function LuaText(n: nat): (s: string)
    ensures '|' !in s
  {
    if n < LUA_PLAIN_LIMIT then Decimal(n) else Scientific(n)
  }

  function Encode(id: string, tokens: nat): string {
    id + "|" + LuaText(tokens)
  }

  /** `string.match(member, '|(%d+)$')`: the leftmost bar followed by digits to the end. */
  function MatchFrom(member: string, i: nat): (r: Option<nat>)
    requires i <= |member|
    decreases |member| - i
  {
    if i == |member| then None
    else if member[i] == '|' && i + 1 < |member| && AllDigits(member[i + 1..]) then Some(Value(member[i + 1..]))
    else MatchFrom(member, i + 1)
  }

  function Parse(member: string): Option<nat> {
    MatchFrom(member, 0)
  }

  /** What one member adds to the script's running total. */
  function Counted(member: string): nat {
    Parse(member).GetOr(0)
  }

  lemma {:induction false} ValueOfDecimal(n: nat)
    ensures Value(Decimal(n)) == n
  {
    var s := Decimal(n);
    if n < 10 {
      assert s[..|s| - 1] == [];
    } else {
      ValueOfDecimal(n / 10);
      assert s[..|s| - 1] == Decimal(n / 10);
    }
  }

  /** Only the last bar can match: every earlier one has a bar after it. */
  lemma {:induction false} MatchSkips(id: string, text: string, i: nat)
    requires '|' !in text && i <= |id|
    ensures MatchFrom(id + "|" + text, i) == MatchFrom(id + "|" + text, |id|)
    decreases |id| - i
  {
    var member := id + "|" + text;
    if i < |id| {
      var rest := member[i + 1..];
      assert rest[|id| - i - 1] == '|';
      assert !AllDigits(rest);
      MatchSkips(id, text, i + 1);
    }
  }

  lemma {:induction false} NoMatchWithoutBar(member: string, i: nat)
    requires i <= |member| && '|' !in member[i..]
    ensures MatchFrom(member, i) == None
    decreases |member| - i
  {
    if i < |member| {
      assert member[i] == member[i..][0];
      assert member[i + 1..] == member[i..][1..];
      NoMatchWithoutBar(member, i + 1);
    }
  }

  /** What the pattern reads back from a member, for every request id and every number. */
  lemma ParseEncoded(id: string, tokens: nat)
    ensures tokens < LUA_PLAIN_LIMIT ==> Parse(Encode(id, tokens)) == Some(tokens)
    ensures LUA_PLAIN_LIMIT <= tokens ==> Parse(Encode(id, tokens)) == None
  {
    var text := LuaText(tokens);
    var member := Encode(id, tokens);
    MatchSkips(id, text, 0);
    assert member[|id|] == '|' && member[|id| + 1..] == text;
    if tokens < LUA_PLAIN_LIMIT {
      ValueOfDecimal(tokens);
    } else {
      assert !AllDigits(text);
      NoMatchWithoutBar(member, |id| + 1);
    }
  }

  /** The script counts an admission's tokens faithfully exactly below 10^14. */
  lemma CountedExactlyWhenPlain(id: string, tokens: nat)
    ensures Counted(Encode(id, tokens)) == (if tokens < 100_000_000_000_000 then tokens else 0)
    ensures Counted(Encode(id, tokens)) == tokens <==> tokens < 100_000_000_000_000
  {
    ParseEncoded(id, tokens);
  }

  /** Request ids may hold bars and digits; two members still never collide. */
  lemma EncodeKeepsId(id1: string, tokens1: nat, id2: string, tokens2: nat)
    ensures Encode(id1, tokens1) == Encode(id2, tokens2) ==> id1 == id2 && LuaText(tokens1) == LuaText(tokens2)
    ensures Encode(id1, tokens1) == Encode(id2, tokens2) && tokens1 < LUA_PLAIN_LIMIT ==> tokens1 == tokens2
  {
    var t1, t2 := LuaText(tokens1), LuaText(tokens2);
    var m1, m2 := Encode(id1, tokens1), Encode(id2, tokens2);
    assert m1[|id1|] == '|' && m1[|id1| + 1..] == t1;
    assert m2[|id2|] == '|' && m2[|id2| + 1..] == t2;
    if m1 == m2 {
      assert |id1| == |id2|;
      assert id1 == m1[..|id1|] == id2;
      assert t1 == m1[|id1| + 1..] == t2;
      ParseEncoded(id1, tokens1);
      ParseEncoded(id2, tokens2);
    }
  }
}
