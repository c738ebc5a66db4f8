/** The constant pool as the comment line that bootstrap/fixup_hex.py prints
    and bootstrap/hex2nbc.py parses. */
module PoolText {
  import opened Options
  import opened HexFixup
  import opened Text

  // ----- printing -----

  function FormatValue(v: Value): string {
    match v
    case IntValue(n) => if n < 0 then ['-'] + FormatNat(-n) else FormatNat(n)
    case StrValue(s) => ['"'] + s + ['"']
  }

  function FormatPool(pool: seq<Value>): string {
    if pool == [] then []
    else if |pool| == 1 then FormatValue(pool[0])
    else FormatValue(pool[0]) + [',', ' '] + FormatPool(pool[1..])
  }

  const PREFIX := "; constant pool: "

  function FormatLine(pool: seq<Value>): string { PREFIX + ['['] + FormatPool(pool) + [']'] }

  // ----- parsing -----

  function Split(s: string): (fields: seq<string>)
    ensures fields != []
  {
    if s == [] then [[]]
    else if s[0] == ',' then [[]] + Split(s[1..])
    else var rest := Split(s[1..]); [[s[0]] + rest[0]] + rest[1..]
  }

  function ParseInt(s: string): Option<int> {
    if s != [] && s[0] == '-' then
      var n := ParseNat(s[1..]);
      if n.None? then None else Some(-(n.value as int))
    else
      var n := ParseNat(s);
      if n.None? then None else Some(n.value as int)
  }

  function ParseValue(x: string): Option<Value>
    requires x != []
  {
    if x[0] == '"' && x[|x| - 1] == '"' then Some(StrValue(if |x| == 1 then [] else x[1..|x| - 1]))
    else match ParseInt(x) case None => None case Some(n) => Some(IntValue(n))
  }

  /** Fields in order; blank ones are skipped and the first malformed one ends
      the parse, keeping what was read. */
  function ParseFields(fields: seq<string>): seq<Value> {
    if fields == [] then []
    else
      var x := Trim(fields[0]);
      if x == [] then ParseFields(fields[1..])
      else match ParseValue(x) case None => [] case Some(v) => [v] + ParseFields(fields[1..])
  }

  function AfterFirst(s: string, c: char): Option<string> {
    if s == [] then None else if s[0] == c then Some(s[1..]) else AfterFirst(s[1..], c)
  }

  function BeforeLast(s: string, c: char): string {
    if c !in s then s else if s[|s| - 1] == c then s[..|s| - 1] else BeforeLast(s[..|s| - 1], c)
  }

  function ParseLine(text: string): seq<Value> {
    match AfterFirst(text, '[')
    case None => []
    case Some(rest) => ParseFields(Split(BeforeLast(rest, ']')))
  }

  // ----- a printed value is a field of its own -----

  predicate CommaFree(pool: seq<Value>) { forall v :: v in pool && v.StrValue? ==> ',' !in v.s }

  lemma {:induction false} IntRoundTrip(n: int)
    ensures var s := FormatValue(IntValue(n));
            && s != [] && !IsSpace(s[0]) && !IsSpace(s[|s| - 1]) && ParseValue(s) == Some(IntValue(n)) && ',' !in s
  {
    hide FormatNat, ParseNat;
    var size := if n < 0 then -n else n;
    var digits := FormatNat(size);
    DecimalRoundTrip(size);
    assert digits[0] in digits && digits[|digits| - 1] in digits;
    if n < 0 {
      var s := ['-'] + digits;
      assert s[1..] == digits && s[|s| - 1] == digits[|digits| - 1];
    }
  }

  lemma {:induction false} ValueRoundTrip(v: Value)
    ensures var s := FormatValue(v);
            && s != [] && !IsSpace(s[0]) && !IsSpace(s[|s| - 1]) && ParseValue(s) == Some(v)
            && (v.StrValue? && ',' in v.s <==> ',' in s)
  {
    hide FormatNat, ParseNat;
    match v
    case IntValue(n) => IntRoundTrip(n);
    case StrValue(t) =>
      var s := ['"'] + t + ['"'];
      assert s[0] == '"' && s[|s| - 1] == '"' && s[1..|s| - 1] == t;
  }

  lemma {:induction false} TrimKeeps(s: string)
    requires s != [] && !IsSpace(s[0]) && !IsSpace(s[|s| - 1])
    ensures Trim(s) == s && Trim([' '] + s) == s
  {
    assert ([' '] + s)[1..] == s;
  }

  lemma {:induction false} SplitNoComma(s: string)
    requires ',' !in s
    ensures Split(s) == [s]
  {
    if s != [] {
      SplitNoComma(s[1..]);
      assert s == [s[0]] + s[1..];
    }
  }

  lemma {:induction false} SplitAt(a: string, b: string)
    requires ',' !in a
    ensures Split(a + [','] + b) == [a] + Split(b)
  {
    var s := a + [','] + b;
    if a == [] {
      assert s[1..] == b;
    } else {
      assert s[1..] == a[1..] + [','] + b;
      SplitAt(a[1..], b);
      assert a == [a[0]] + a[1..];
      assert ([a[1..]] + Split(b))[1..] == Split(b);
    }
  }

  // ----- round trip -----

  /** A printed pool, with or without a leading blank, parses back. */
  lemma {:induction false} FieldsRoundTrip(pool: seq<Value>, blank: bool)
    requires CommaFree(pool)
    ensures ParseFields(Split((if blank then [' '] else []) + FormatPool(pool))) == pool
    decreases |pool|
  {
    hide ParseValue, FormatValue, Trim, IsSpace;
    var lead := if blank then [' '] else [];
    if pool == [] {
      BlankField(blank);
    } else {
      var first := FormatValue(pool[0]);
      ValueRoundTrip(pool[0]);
      TrimKeeps(first);
      assert lead + first == if blank then [' '] + first else first;
      if |pool| == 1 {
        SplitNoComma(lead + first);
        assert ParseFields([]) == [];
        assert [lead + first][1..] == [];
        assert pool == [pool[0]];
      } else {
        var rest := [' '] + FormatPool(pool[1..]);
        assert lead + FormatPool(pool) == (lead + first) + [','] + rest;
        SplitAt(lead + first, rest);
        FieldsRoundTrip(pool[1..], true);
        assert ([lead + first] + Split(rest))[1..] == Split(rest);
        assert pool == [pool[0]] + pool[1..];
      }
    }
  }

  lemma {:induction false} BlankField(blank: bool)
    ensures ParseFields(Split((if blank then [' '] else []) + FormatPool([]))) == []
  {
    var s: string := (if blank then [' '] else []) + FormatPool([]);
    SplitNoComma(s);
    if blank { assert s == [' '] && IsSpace(s[0]) && s[1..] == []; assert TrimLeft([]) == []; }
    assert TrimLeft(s) == [] && Trim(s) == [];
    var fields: seq<string> := [s];
    assert fields[1..] == [];
    assert ParseFields([]) == [];
  }

  // ----- and nothing that is parsed holds a comma -----

  lemma {:induction false} TrimChars(s: string, c: char)
    requires c in Trim(s)
    ensures c in s
  {
    TrimRightChars(TrimLeft(s), c);
    TrimLeftChars(s, c);
  }

  lemma {:induction false} TrimLeftChars(s: string, c: char)
    requires c in TrimLeft(s)
    ensures c in s
  {
    if s != [] && IsSpace(s[0]) { TrimLeftChars(s[1..], c); }
  }

  lemma {:induction false} TrimRightChars(s: string, c: char)
    requires c in TrimRight(s)
    ensures c in s
  {
    if s != [] && IsSpace(s[|s| - 1]) { TrimRightChars(s[..|s| - 1], c); }
  }

  lemma {:induction false} SplitFields(s: string)
    ensures forall f :: f in Split(s) ==> ',' !in f
  {
    if s != [] { SplitFields(s[1..]); }
  }

  lemma {:induction false} ParsedCommaFree(fields: seq<string>)
    requires forall f :: f in fields ==> ',' !in f
    ensures CommaFree(ParseFields(fields))
    decreases |fields|
  {
    if fields != [] {
      ParsedCommaFree(fields[1..]);
      var x := Trim(fields[0]);
      if ',' in x { TrimChars(fields[0], ','); }
    }
  }

  lemma {:induction false} AfterPrefix(p: string, rest: string)
    requires '[' !in p
    ensures AfterFirst(p + ['['] + rest, '[') == Some(rest)
    decreases |p|
  {
    var s := p + ['['] + rest;
    if p == [] {
      assert s[1..] == rest;
    } else {
      assert s[1..] == p[1..] + ['['] + rest;
      AfterPrefix(p[1..], rest);
    }
  }

  lemma {:induction false} LineInside(pool: seq<Value>)
    ensures ParseLine(FormatLine(pool)) == ParseFields(Split(FormatPool(pool)))
  {
    hide Split, ParseFields, FormatPool;
    var inside := FormatPool(pool);
    assert '[' !in PREFIX;
    AfterPrefix(PREFIX, inside + [']']);
    assert FormatLine(pool) == PREFIX + ['['] + (inside + [']']);
    assert (inside + [']'])[..|inside|] == inside && (inside + [']'])[|inside|] == ']';
  }

  /** The printed pool line parses back to the pool exactly when no string in
      the pool contains a comma. */
  lemma {:induction false} PoolLineRoundTrip(pool: seq<Value>)
    ensures ParseLine(FormatLine(pool)) == pool <==> CommaFree(pool)
  {
    hide Split, ParseFields, FormatPool, ParseLine, FormatLine;
    LineInside(pool);
    if CommaFree(pool) {
      FieldsRoundTrip(pool, false);
      assert [] + FormatPool(pool) == FormatPool(pool);
    } else {
      SplitFields(FormatPool(pool));
      ParsedCommaFree(Split(FormatPool(pool)));
    }
  }
}
