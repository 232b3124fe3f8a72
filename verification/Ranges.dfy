/** Byte ranges of file content (`src/server.rs`): what a request header selects of a file. */
module Ranges {
  import opened Common

  const U64_LIMIT: nat := 0x1_0000_0000_0000_0000

  // ---- decimal numbers ----

  predicate IsDigit(c: char) {
    '0' <= c <= '9'
  }

  predicate AllDigits(s: string) {
    forall i :: 0 <= i < |s| ==> IsDigit(s[i])
  }

  /** The number a string of digits denotes. */
  function Value(s: string): nat
    requires AllDigits(s)
  {
    if s == [] then 0 else 10 * Value(s[..|s| - 1]) + (s[|s| - 1] - '0') as nat
  }

  /** `u64::from_str` after the sign: each step rejects a non-digit and checks the multiplication and addition. */
  function Accumulate(acc: nat, s: string): Option<nat>
    decreases |s|
  {
    if s == [] then Some(acc)
    else if !IsDigit(s[0]) then None
    else
      var next := 10 * acc + (s[0] - '0') as nat;
      if next >= U64_LIMIT then None else Accumulate(next, s[1..])
  }

  /** `str::parse::<u64>`: one leading plus is accepted, an empty or sign-only text is not. */
  function ParseU64(s: string): Option<nat> {
    var digits := if s != [] && s[0] == '+' then s[1..] else s;
    if digits == [] then None else Accumulate(0, digits)
  }

  function DigitChar(d: nat): char
    requires d < 10
  {
    '0' + d as char
  }

  /** How `format!` prints an unsigned number. */
  function Print(n: nat): string {
    if n < 10 then [DigitChar(n)] else Print(n / 10) + [DigitChar(n % 10)]
  }

  // ---- the Range header ----

  datatype Outcome = Whole | Part(first: nat, last: nat) | Unsatisfiable

  const UNIT: string := "bytes="

  function IndexOf(s: string, c: char): (i: nat)
    ensures i <= |s|
    ensures forall j :: 0 <= j < i ==> s[j] != c
    ensures i < |s| ==> s[i] == c
  {
    if s == [] || s[0] == c then 0 else 1 + IndexOf(s[1..], c)
  }

  /** `parse_range`. An absent header, or one that is not visible text, is `None`. */
  function ParseRange(header: Option<string>, total: nat): Outcome {
    if header.None? then Whole
    else if !(UNIT <= header.value) then Unsatisfiable
    else ParseSpec(header.value[|UNIT|..], total)
  }

  function ParseSpec(spec: string, total: nat): Outcome {
    if ',' in spec || total == 0 then Unsatisfiable
    else
      var dash := IndexOf(spec, '-');
      if dash == |spec| then Unsatisfiable
      else
        var bounds := Bounds(spec[..dash], spec[dash + 1..], total);
        if bounds.None? || bounds.value.0 >= total || bounds.value.0 > bounds.value.1 then Unsatisfiable
        else Part(bounds.value.0, bounds.value.1)
  }

  function Clamp(n: nat, total: nat): nat
    requires total > 0
  {
    if n < total then n else total - 1
  }

  function Bounds(start: string, end: string, total: nat): Option<(nat, nat)>
    requires total > 0
  {
    if start == [] then
      var suffix := ParseU64(end);
      if suffix.None? || suffix.value == 0 then None
      else Some((if total < suffix.value then 0 else total - suffix.value, total - 1))
    else
      var first := ParseU64(start);
      if first.None? then None
      else if end == [] then Some((first.value, total - 1))
      else
        var last := ParseU64(end);
        if last.None? then None else Some((first.value, Clamp(last.value, total)))
  }

  // ---- serving content ----

  type Bytes = seq<bv8>

  /** A response to a request for a file: status, body, and the numbers in its headers. */
  datatype Response =
    | Full(body: Bytes, length: nat)
    | Partial(body: Bytes, length: nat, first: nat, last: nat, total: nat)
    | RangeError(total: nat)

  /** The part of `content` that picks the bytes: the range counts only when `If-Range` matches. */
  function Serve(file: Bytes, header: Option<string>, ifRangeMatches: bool): Response {
    var total := |file|;
    match if ifRangeMatches then ParseRange(header, total) else Whole
    case Unsatisfiable => RangeError(total)
    case Whole =>
      var length := Length(0, if total == 0 then 0 else total - 1, total);
      Full(Take(file, 0, length), length)
    case Part(first, last) =>
      var length := Length(first, last, total);
      Partial(Take(file, first, length), length, first, last, total)
  }

  /** A `u64` result: what an overflow or underflow would leave. */
  function Wrap(x: int): nat {
    x % U64_LIMIT
  }

  function Length(first: nat, last: nat, total: nat): nat {
    if total == 0 then 0 else Wrap(Wrap(last - first) + 1)
  }

  /** Seek to `start`, then read at most `length` bytes. */
  function Take(file: Bytes, start: nat, length: nat): Bytes {
    if start >= |file| then []
    else if start + length <= |file| then file[start..start + length]
    else file[start..]
  }
}
