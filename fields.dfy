/** The comma-separated payload: `str::split(',')`, the `FromStr` parses the
    decoders use, and the `parse_next`/`skip` cursor of src/api.rs. */
module Fields {
  import opened Wrappers
  import opened Ints

  // ---------------------------------------------------------------------
  // Splitting

  /** Index of the first `c` in `s`, or `|s|` when there is none. */
  function IndexOf(s: string, c: char): (i: nat)
    ensures i <= |s|
    ensures i < |s| ==> s[i] == c
    ensures c !in s[..i]
  {
    if |s| == 0 || s[0] == c then 0 else 1 + IndexOf(s[1..], c)
  }

  /** `s.split(sep)`: the pieces between separators, empty pieces included,
      so `""` splits into `[""]` and `"a,"` into `["a", ""]`. */
  function Split(s: string, sep: char): (r: seq<string>)
    ensures 1 <= |r| <= |s| + 1
    ensures forall k :: 0 <= k < |r| ==> sep !in r[k]
    decreases |s|
  {
    var i := IndexOf(s, sep);
    if i == |s| then [s] else [s[..i]] + Split(s[i + 1..], sep)
  }

  /** The inverse of `Split`: the pieces glued back with `sep`. */
  function JoinWith(parts: seq<string>, sep: char): string
    requires |parts| >= 1
  {
    if |parts| == 1 then parts[0] else parts[0] + [sep] + JoinWith(parts[1..], sep)
  }

  /** Splitting loses nothing: gluing the fields back gives the payload. */
  lemma {:induction false} JoinSplit(s: string, sep: char)
    ensures JoinWith(Split(s, sep), sep) == s
    decreases |s|
  {
    var i := IndexOf(s, sep);
    var parts := Split(s, sep);
    if i < |s| {
      var tail := s[i + 1..];
      var rest := Split(tail, sep);
      assert parts == [s[..i]] + rest;
      assert parts[0] == s[..i] && parts[1..] == rest;
      assert JoinWith(parts, sep) == s[..i] + [sep] + JoinWith(rest, sep);
      JoinSplit(tail, sep);
      assert s == s[..i] + [sep] + tail;
    }
  }

  /** Splitting recovers any separator-free fields that were glued. */
  lemma {:induction false} SplitJoin(parts: seq<string>, sep: char)
    requires |parts| >= 1
    requires forall k :: 0 <= k < |parts| ==> sep !in parts[k]
    ensures Split(JoinWith(parts, sep), sep) == parts
    decreases |parts|
  {
    var s := JoinWith(parts, sep);
    if |parts| == 1 {
      IndexOfAbsent(s, sep);
    } else {
      var i := |parts[0]|;
      var rest := JoinWith(parts[1..], sep);
      assert s == parts[0] + [sep] + rest;
      assert s[..i] == parts[0] && s[i] == sep;
      IndexOfAt(s, sep, i);
      assert s[i + 1..] == rest;
      assert Split(s, sep) == [parts[0]] + Split(rest, sep);
      SplitJoin(parts[1..], sep);
      assert parts == [parts[0]] + parts[1..];
    }
  }

  lemma IndexOfAbsent(s: string, c: char)
    requires c !in s
    ensures IndexOf(s, c) == |s|
  {
  }

  lemma IndexOfAt(s: string, c: char, i: nat)
    requires i < |s| && s[i] == c && c !in s[..i]
    ensures IndexOf(s, c) == i
  {
  }

  // ---------------------------------------------------------------------
  // Parsing (`FromStr` for the integer types)

  predicate IsDigit(c: char) { '0' <= c <= '9' }

  predicate AllDigits(s: string) {
    forall k :: 0 <= k < |s| ==> IsDigit(s[k])
  }

  function DigitValue(c: char): nat
    requires IsDigit(c)
  {
    (c as int) - ('0' as int)
  }

  /** The value of a string of decimal digits, most significant first. */
  function DigitsValue(s: string): nat
    requires AllDigits(s)
  {
    if |s| == 0 then 0 else 10 * DigitsValue(s[..|s| - 1]) + DigitValue(s[|s| - 1])
  }

  /** Rust's decimal `from_str` for unsigned integers, before the range
      check: an optional `+` and at least one digit; nothing else (no `-`,
      no blanks). */
  function Unsigned(s: string): Option<nat> {
    if |s| == 0 then None
    else
      var digits := if s[0] == '+' then s[1..] else s;
      if |digits| == 0 || !AllDigits(digits) then None else Some(DigitsValue(digits))
  }

  /** `s.parse::<u16>()`: out-of-range values are errors. */
  function ParseU16(s: string): Option<u16> {
    match Unsigned(s)
    case Some(n) => if n < 0x1_0000 then Some(n as u16) else None
    case None => None
  }

  /** `s.parse::<usize>()` on a 64-bit target. */
  function ParseUsize(s: string): Option<nat> {
    match Unsigned(s)
    case Some(n) => if n < 0x1_0000_0000_0000_0000 then Some(n) else None
    case None => None
  }

  /** The integer texts that `s.parse::<f32>()` accepts: an optional sign
      and at least one digit. The value is kept exact. */
  function ParseInt(s: string): Option<int> {
    if |s| > 0 && s[0] == '-' then
      var digits := s[1..];
      if |digits| == 0 || !AllDigits(digits) then None else Some(-(DigitsValue(digits) as int))
    else
      match Unsigned(s)
      case Some(n) => Some(n as int)
      case None => None
  }

  /** The decimal rendering of `n`, without leading zeros. */
  function Decimal(n: nat): (s: string)
    ensures |s| >= 1 && AllDigits(s)
  {
    var d := ['0' + ((n % 10) as char)];
    if n < 10 then d else Decimal(n / 10) + d
  }

  lemma {:induction false} DigitsValueDecimal(n: nat)
    ensures DigitsValue(Decimal(n)) == n
  {
    var s := Decimal(n);
    if n >= 10 {
      DigitsValueDecimal(n / 10);
      assert s[..|s| - 1] == Decimal(n / 10);
    }
  }

  /** Parsing a rendered u16 gives it back. */
  lemma ParseU16Decimal(v: u16)
    ensures ParseU16(Decimal(v as nat)) == Some(v)
    ensures ParseU16("+" + Decimal(v as nat)) == Some(v)
  {
    DigitsValueDecimal(v as nat);
    assert ("+" + Decimal(v as nat))[1..] == Decimal(v as nat);
  }

  /** The unsigned parse rejects every text that contains a minus sign. */
  lemma UnsignedRejectsMinus(s: string)
    ensures '-' in s ==> Unsigned(s) == None
  {
    if '-' in s {
      var k :| 0 <= k < |s| && s[k] == '-';
      if s[0] == '+' {
        assert s[1..][k - 1] == '-';
      } else {
        assert !IsDigit(s[k]);
      }
    }
  }

  /** A rendered number beyond u16's range, or any text with a minus sign,
      does not parse as u16 (the cell decoder then uses 0); a minus sign is
      rejected by the usize parse too. */
  lemma ParseU16Rejects(n: nat, s: string)
    ensures n >= 0x1_0000 ==> ParseU16(Decimal(n)) == None
    ensures '-' in s ==> ParseU16(s) == None && ParseUsize(s) == None
    ensures ParseU16("") == None && ParseU16("+") == None
  {
    DigitsValueDecimal(n);
    UnsignedRejectsMinus(s);
  }

  /** Parsing a rendered integer (with a minus sign when negative) as the
      main page's numbers gives it back. */
  lemma ParseIntDecimal(x: int)
    ensures ParseInt(if x < 0 then "-" + Decimal(-x) else Decimal(x)) == Some(x)
  {
    if x < 0 {
      DigitsValueDecimal(-x);
      assert ("-" + Decimal(-x))[1..] == Decimal(-x);
    } else {
      DigitsValueDecimal(x);
    }
  }

  // ---------------------------------------------------------------------
  // Reading fields positionally

  /** The `anyhow::Error`s a leg can return. */
  datatype FetchError =
    | ValueNotFound             // "Value not found": the fields ran out
    | ErrorParsingValue         // "Error parsing value": a field did not parse
    | Transport(message: string) // the HTTP request or body decoding failed

  /** What `parse_next` returns when the cursor stands at index `i`. */
  function FieldAt<T>(fields: seq<string>, i: nat, parse: string -> Option<T>): Result<T, FetchError>
  {
    if i >= |fields| then Err(ValueNotFound)
    else match parse(fields[i])
      case Some(v) => Ok(v)
      case None => Err(ErrorParsingValue)
  }

  /** The `Split<char>` iterator over a payload: the fields and the index of
      the next one. */
  class FieldCursor {
    const fields: seq<string>
    var pos: nat

    ghost predicate Valid()
      reads this
    {
      pos <= |fields|
    }

    constructor (fields: seq<string>)
      ensures Valid() && this.fields == fields && pos == 0
    {
      this.fields := fields;
      pos := 0;
    }

    /** `iter.next()` */
    method Next() returns (f: Option<string>)
      requires Valid()
      modifies this
      ensures Valid()
      ensures old(pos) < |fields| ==> f == Some(fields[old(pos)]) && pos == old(pos) + 1
      ensures old(pos) == |fields| ==> f == None && pos == old(pos)
    {
      if pos < |fields| {
        f := Some(fields[pos]);
        pos := pos + 1;
      } else {
        f := None;
      }
    }

    /** `skip(iter, n)`: advances past up to `n` fields, never failing. */
    method Skip(n: nat)
      requires Valid()
      modifies this
      ensures Valid() && pos == MinNat(old(pos) + n, |fields|)
    {
      for k := 0 to n
        invariant Valid() && pos == MinNat(old(pos) + k, |fields|)
      {
        var ignored := Next();
      }
    }

    /** `parse_next(iter)`: the next field, parsed. */
    method ParseNext<T>(parse: string -> Option<T>) returns (r: Result<T, FetchError>)
      requires Valid()
      modifies this
      ensures Valid() && pos == MinNat(old(pos) + 1, |fields|)
      ensures r == FieldAt(fields, old(pos), parse)
    {
      var f := Next();
      match f
      case None => r := Err(ValueNotFound);
      case Some(s) =>
        match parse(s)
        case Some(v) => r := Ok(v);
        case None => r := Err(ErrorParsingValue);
    }
  }
}
