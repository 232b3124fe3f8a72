/** What the range parser accepts, and that the slices it selects put the file together again. */
module RangeTheorems {
  import opened Common
  import opened Ranges

  // ---- decimal numbers ----

  function Pow10(n: nat): nat {
    if n == 0 then 1 else 10 * Pow10(n - 1)
  }

  lemma ShiftDigit(d: nat, p: nat, v: nat, last: nat)
    ensures 10 * (d * p + v) + last == d * (10 * p) + (10 * v + last)
  {}

  lemma {:induction false} ValueFront(s: string)
    requires s != [] && AllDigits(s)
    ensures Value(s) == ((s[0] - '0') as nat) * Pow10(|s| - 1) + Value(s[1..])
  {
    var init := s[..|s| - 1];
    if |s| == 1 {
      assert init == [] && s[1..] == [];
    } else {
      var tail := s[1..];
      var last := (s[|s| - 1] - '0') as nat;
      ValueFront(init);
      assert init[1..] == tail[..|tail| - 1];
      assert Value(tail) == 10 * Value(init[1..]) + last;
      ShiftDigit((s[0] - '0') as nat, Pow10(|s| - 2), Value(init[1..]), last);
    }
  }

  lemma {:induction false} Pow10Positive(n: nat)
    ensures Pow10(n) >= 1
  {
    if n == 0 {
    } else {
      Pow10Positive(n - 1);
    }
  }

  lemma AccumulatedStep(acc: nat, d: nat, p: nat)
    ensures (10 * acc + d) * p == acc * (10 * p) + d * p
  {}

  lemma GrowsOverLimit(next: nat, p: nat, rest: nat)
    requires next >= U64_LIMIT && p >= 1
    ensures next * p + rest >= U64_LIMIT
  {
    assert next * p >= next;
  }

  /** Rejecting on the first overflow is the same as rejecting a value that does not fit. */
  lemma {:induction false} AccumulateExactly(acc: nat, s: string, v: nat)
    requires acc < U64_LIMIT
    ensures Accumulate(acc, s) == Some(v) <==> AllDigits(s) && v == acc * Pow10(|s|) + Value(s) && v < U64_LIMIT
    decreases |s|
  {
    if s == [] {
      assert Pow10(0) == 1;
    } else if !IsDigit(s[0]) {
    } else {
      var d := (s[0] - '0') as nat;
      var next := 10 * acc + d;
      var p := Pow10(|s| - 1);
      assert AllDigits(s) <==> AllDigits(s[1..]) by {
        assert forall i :: 0 < i < |s| ==> s[i] == s[1..][i - 1];
      }
      AccumulatedStep(acc, d, p);
      assert Pow10(|s|) == 10 * p;
      if AllDigits(s) {
        ValueFront(s);
        if next >= U64_LIMIT {
          Pow10Positive(|s| - 1);
          GrowsOverLimit(next, p, Value(s[1..]));
        }
      }
      if next < U64_LIMIT {
        AccumulateExactly(next, s[1..], v);
      }
    }
  }

  function Unsigned(s: string): string {
    if s != [] && s[0] == '+' then s[1..] else s
  }

  /** A text parses as a `u64` exactly when, after one optional plus, it is a non-empty string of digits
      whose value fits in 64 bits; leading zeros are allowed, and the result is that value. */
  lemma ParseU64Exactly(s: string, v: nat)
    ensures ParseU64(s) == Some(v) <==>
      Unsigned(s) != [] && AllDigits(Unsigned(s)) && v == Value(Unsigned(s)) && v <= 18_446_744_073_709_551_615
  {
    AccumulateExactly(0, Unsigned(s), v);
  }

  lemma {:induction false} PrintIsDigits(n: nat)
    ensures Print(n) != [] && AllDigits(Print(n)) && Value(Print(n)) == n
    ensures Print(n)[0] == '0' ==> n == 0 && Print(n) == "0"
  {
    if n < 10 {
      assert Print(n)[..0] == [];
      assert Value([]) == 0;
    } else {
      PrintIsDigits(n / 10);
      assert Print(n)[..|Print(n)| - 1] == Print(n / 10);
    }
  }

  lemma PrintParses(n: nat)
    requires n < U64_LIMIT
    ensures ParseU64(Print(n)) == Some(n)
    ensures '-' !in Print(n) && ',' !in Print(n) && Print(n) != []
  {
    PrintIsDigits(n);
    assert IsDigit(Print(n)[0]);
    ParseU64Exactly(Print(n), n);
  }

  // ---- what is accepted ----

  /** An accepted range is a non-empty part of the file, so its length neither underflows nor wraps. */
  lemma AcceptedIsInside(header: Option<string>, total: nat)
    requires total < U64_LIMIT && ParseRange(header, total).Part?
    ensures var r := ParseRange(header, total);
      r.first <= r.last < total && Length(r.first, r.last, total) == r.last - r.first + 1
      && 1 <= Length(r.first, r.last, total) <= total
  {
    var spec := header.value[|UNIT|..];
    var dash := IndexOf(spec, '-');
    BoundsBelow(spec[..dash], spec[dash + 1..], total);
  }

  lemma BoundsBelow(start: string, end: string, total: nat)
    requires total > 0
    ensures Bounds(start, end, total).Some? ==> Bounds(start, end, total).value.1 < total
  {}

  lemma FirstDash(start: string, end: string)
    requires '-' !in start
    ensures IndexOf(start + "-" + end, '-') == |start|
    ensures (start + "-" + end)[..|start|] == start && (start + "-" + end)[|start| + 1..] == end
  {
    var s := start + "-" + end;
    assert s[|start|] == '-';
    forall j | 0 <= j < |start| ensures s[j] != '-' {
      assert s[j] == start[j] && start[j] in start;
    }
  }

  ghost predicate Splits(spec: string, start: string, end: string) {
    spec == start + "-" + end && '-' !in start
  }

  /** A range is accepted exactly for `bytes=start-end` without a comma, split at the first dash, on a
      non-empty file, whose bounds denote a non-empty part of it; everything else is a 416. */
  lemma AcceptedExactly(value: string, total: nat, first: nat, last: nat)
    ensures ParseRange(Some(value), total) == Part(first, last) <==>
      && total > 0 && first <= last < total && UNIT <= value && ',' !in value[|UNIT|..]
      && exists start, end ::
           Splits(value[|UNIT|..], start, end) && Bounds(start, end, total) == Some((first, last))
    ensures ParseRange(Some(value), total) != Whole
  {
    if UNIT <= value && total > 0 {
      var spec := value[|UNIT|..];
      var dash := IndexOf(spec, '-');
      if dash < |spec| {
        BoundsBelow(spec[..dash], spec[dash + 1..], total);
        assert spec == spec[..dash] + "-" + spec[dash + 1..];
        assert Splits(spec, spec[..dash], spec[dash + 1..]);
      }
      forall start, end | Splits(spec, start, end) ensures dash == |start| && spec[..dash] == start && spec[dash + 1..] == end {
        FirstDash(start, end);
      }
    }
  }

  /** Whether an outcome selects the byte at position `i` of a file of `total` bytes. */
  predicate Selects(r: Outcome, total: nat, i: nat) {
    i < total && (r.Whole? || (r.Part? && r.first <= i <= r.last))
  }

  lemma SpecParses(start: string, end: string, total: nat)
    requires '-' !in start && ',' !in start && ',' !in end && total > 0
    ensures ParseRange(Some(UNIT + start + "-" + end), total) ==
      (var b := Bounds(start, end, total);
       if b.None? || b.value.0 >= total || b.value.0 > b.value.1 then Unsatisfiable else Part(b.value.0, b.value.1))
  {
    var v := UNIT + start + "-" + end;
    var spec := start + "-" + end;
    assert v[..|UNIT|] == UNIT && v[|UNIT|..] == spec;
    forall i | 0 <= i < |spec| ensures spec[i] != ',' {
      assert i < |start| ==> spec[i] == start[i];
      assert i > |start| ==> spec[i] == end[i - |start| - 1];
    }
    FirstDash(start, end);
  }

  /** The byte at `i` is asked for by `start` and `end`, whatever their spelling. */
  predicate Asks(start: string, end: string, total: nat, i: nat) {
    && i < total
    && (start != [] || end != [])
    && (start == [] ==> ParseU64(end).Some? && total <= i + ParseU64(end).value)
    && (start != [] ==> ParseU64(start).Some? && ParseU64(start).value <= i)
    && (start != [] && end != [] ==> ParseU64(end).Some? && i <= ParseU64(end).value)
  }

  /** Neither empty nor a number that fits in 64 bits. */
  predicate Malformed(s: string) {
    s != [] && ParseU64(s).None?
  }

  lemma BoundsSelect(start: string, end: string, total: nat, i: nat)
    requires total > 0
    ensures var b := Bounds(start, end, total);
      Asks(start, end, total, i) <==> b.Some? && b.value.0 <= i <= b.value.1 < total
    ensures Bounds(start, end, total).Some? ==> !Malformed(start) && !Malformed(end)
    ensures Bounds(start, end, total).None? ==> Malformed(start) || Malformed(end) || (start == [] && !Asks(start, end, total, i))
  {}

  /** For any text on either side of the dash: a byte is selected exactly when the two ask for it, a text that is neither
      empty nor a number is a 416, and so is anything that asks for no byte at all. */
  lemma RangeTextSelects(start: string, end: string, total: nat)
    requires '-' !in start && ',' !in start && ',' !in end
    ensures var r := ParseRange(Some("bytes=" + start + "-" + end), total);
      && !r.Whole?
      && (forall i: nat :: Selects(r, total, i) <==> Asks(start, end, total, i))
      && (r.Unsatisfiable? <==> forall i: nat :: !Asks(start, end, total, i))
      && (Malformed(start) || Malformed(end) ==> r.Unsatisfiable?)
  {
    var r := ParseRange(Some("bytes=" + start + "-" + end), total);
    if total == 0 {
      PrefixIsUnit(start + "-" + end);
      assert UNIT + start + "-" + end == UNIT + (start + "-" + end);
    } else {
      SpecParses(start, end, total);
      forall i: nat ensures Selects(r, total, i) <==> Asks(start, end, total, i) {
        BoundsSelect(start, end, total, i);
      }
      BoundsBelow(start, end, total);
      BoundsSelect(start, end, total, 0);
      if r.Part? {
        assert Selects(r, total, r.first);
      }
    }
  }

  /** `bytes=a-b` selects the bytes from `a` to `b` that exist, and is a 416 when there are none. */
  lemma ClosedRangeSelects(a: nat, b: nat, total: nat)
    requires a < U64_LIMIT && b < U64_LIMIT && total < U64_LIMIT
    ensures var r := ParseRange(Some(UNIT + Print(a) + "-" + Print(b)), total);
      && (forall i: nat :: Selects(r, total, i) <==> i < total && a <= i <= b)
      && (r.Unsatisfiable? <==> a >= total || a > b)
  {
    PrintParses(a);
    PrintParses(b);
    if total > 0 {
      SpecParses(Print(a), Print(b), total);
    } else {
      PrefixIsUnit(Print(a) + "-" + Print(b));
      assert UNIT + Print(a) + "-" + Print(b) == UNIT + (Print(a) + "-" + Print(b));
    }
  }

  lemma PrefixIsUnit(spec: string)
    ensures UNIT <= UNIT + spec && (UNIT + spec)[|UNIT|..] == spec
  {}

  /** `bytes=a-` selects everything from `a` on. */
  lemma OpenRangeSelects(a: nat, total: nat)
    requires a < U64_LIMIT && total < U64_LIMIT
    ensures var r := ParseRange(Some(UNIT + Print(a) + "-"), total);
      && (forall i: nat :: Selects(r, total, i) <==> a <= i < total)
      && (r.Unsatisfiable? <==> a >= total)
  {
    PrintParses(a);
    if total > 0 {
      SpecParses(Print(a), "", total);
      assert UNIT + Print(a) + "-" + "" == UNIT + Print(a) + "-";
    } else {
      PrefixIsUnit(Print(a) + "-");
      assert UNIT + Print(a) + "-" == UNIT + (Print(a) + "-");
    }
  }

  /** `bytes=-n` selects the last `n` bytes, or all of a shorter file. */
  lemma SuffixRangeSelects(n: nat, total: nat)
    requires n < U64_LIMIT && total < U64_LIMIT
    ensures var r := ParseRange(Some(UNIT + "-" + Print(n)), total);
      && (forall i: nat :: Selects(r, total, i) <==> i < total && total <= i + n)
      && (r.Unsatisfiable? <==> n == 0 || total == 0)
  {
    PrintParses(n);
    if total > 0 {
      SpecParses("", Print(n), total);
      assert UNIT + "" + "-" + Print(n) == UNIT + "-" + Print(n);
    } else {
      PrefixIsUnit("-" + Print(n));
      assert UNIT + "-" + Print(n) == UNIT + ("-" + Print(n));
    }
  }

  /** Printing an accepted range and parsing it again gives the same range. */
  lemma RangeRoundTrip(header: Option<string>, total: nat)
    requires total < U64_LIMIT && ParseRange(header, total).Part?
    ensures var r := ParseRange(header, total);
      ParseRange(Some(UNIT + Print(r.first) + "-" + Print(r.last)), total) == r
  {
    AcceptedIsInside(header, total);
    var r := ParseRange(header, total);
    PrintParses(r.first);
    PrintParses(r.last);
    SpecParses(Print(r.first), Print(r.last), total);
  }

  // ---- serving and reassembling ----

  /** A request without a `Range` header gets the whole file. */
  lemma PlainRequestServesWhole(file: Bytes, matches: bool)
    requires |file| < U64_LIMIT
    ensures Serve(file, None, matches) == Full(file, |file|)
  {}

  /** A response carries exactly the bytes its headers announce. It is the whole file exactly when there is no `Range`
      header to honour, a 416 exactly when there is one that selects nothing, and a part otherwise. */
  lemma ServesSlice(file: Bytes, header: Option<string>, matches: bool)
    requires |file| < U64_LIMIT
    ensures var r, asked := Serve(file, header, matches), ParseRange(header, |file|);
      && (r.Full? <==> !matches || header.None?)
      && (r.RangeError? <==> matches && header.Some? && forall i: nat :: !Selects(asked, |file|, i))
      && (r.Partial? ==> forall i: nat :: Selects(asked, |file|, i) <==> r.first <= i <= r.last)
    ensures match Serve(file, header, matches)
      case Full(body, length) => body == file && length == |file|
      case Partial(body, length, first, last, total) =>
        && matches && total == |file| && first <= last < total
        && body == file[first..last + 1] && length == |body|
      case RangeError(total) => matches && total == |file|
  {
    var asked := ParseRange(header, |file|);
    if header.Some? {
      NeverWhole(header.value, |file|);
    }
    if asked.Part? {
      AcceptedIsInside(header, |file|);
      assert Selects(asked, |file|, asked.first);
    }
  }

  lemma NeverWhole(value: string, total: nat)
    ensures ParseRange(Some(value), total) != Whole
  {}

  /** A client asks from the byte after those it has, up to `end` or open-ended. */
  function Ask(got: nat, end: Option<nat>): Option<string> {
    Some(UNIT + Print(got) + "-" + (if end.Some? then Print(end.value) else ""))
  }

  predicate Satisfiable(total: nat, got: nat, end: Option<nat>) {
    got < total && (end.Some? ==> got <= end.value < U64_LIMIT)
  }

  lemma AskParses(total: nat, got: nat, end: Option<nat>)
    requires total < U64_LIMIT && got < U64_LIMIT && (end.Some? ==> end.value < U64_LIMIT)
    ensures ParseRange(Ask(got, end), total) ==
      if Satisfiable(total, got, end) then
        Part(got, if end.Some? && end.value < total then end.value else total - 1)
      else Unsatisfiable
  {
    PrintParses(got);
    var last := if end.Some? then Print(end.value) else "";
    if end.Some? {
      PrintParses(end.value);
    }
    if total > 0 {
      SpecParses(Print(got), last, total);
    } else {
      PrefixIsUnit(Print(got) + "-" + last);
      assert Ask(got, end).value == UNIT + (Print(got) + "-" + last);
    }
  }

  lemma PartServes(file: Bytes, header: Option<string>, first: nat, last: nat)
    requires |file| < U64_LIMIT && ParseRange(header, |file|) == Part(first, last)
    ensures first <= last < |file|
    ensures Serve(file, header, true) == Partial(file[first..last + 1], last + 1 - first, first, last, |file|)
  {
    AcceptedIsInside(header, |file|);
  }

  lemma AskServes(file: Bytes, got: nat, end: Option<nat>)
    requires |file| < U64_LIMIT && got < U64_LIMIT && (end.Some? ==> end.value < U64_LIMIT)
    ensures var r := Serve(file, Ask(got, end), true);
      if Satisfiable(|file|, got, end) then
        var last := if end.Some? && end.value < |file| then end.value else |file| - 1;
        r == Partial(file[got..last + 1], last + 1 - got, got, last, |file|)
      else r == RangeError(|file|)
  {
    AskParses(|file|, got, end);
    if Satisfiable(|file|, got, end) {
      PartServes(file, Ask(got, end), got, if end.Some? && end.value < |file| then end.value else |file| - 1);
    }
  }

  function Received(r: Response): Bytes {
    if r.Partial? then r.body else []
  }

  /** What the request for `got` and `end` brings. */
  function Fetched(file: Bytes): (nat, Option<nat>) -> Bytes {
    (got: nat, end: Option<nat>) => Received(Serve(file, Ask(got, end), true))
  }

  /** What a client holds after the requests `ends`, when it starts with `got` bytes. */
  function Download(fetch: (nat, Option<nat>) -> Bytes, got: nat, ends: seq<Option<nat>>): Bytes
    decreases |ends|
  {
    if ends == [] then []
    else
      var body := fetch(got, ends[0]);
      body + Download(fetch, got + |body|, ends[1..])
  }

  /** Every request of the sequence is satisfiable when its turn comes. */
  predicate AllSatisfiable(fetch: (nat, Option<nat>) -> Bytes, total: nat, got: nat, ends: seq<Option<nat>>)
    decreases |ends|
  {
    ends == [] || (
      && Satisfiable(total, got, ends[0])
      && AllSatisfiable(fetch, total, got + |fetch(got, ends[0])|, ends[1..]))
  }

  /** A satisfiable request brings a non-empty slice that starts where the client stands. */
  ghost predicate FetchesSlices(file: Bytes, fetch: (nat, Option<nat>) -> Bytes) {
    forall got: nat, end :: Satisfiable(|file|, got, end) ==>
      var body := fetch(got, end);
      body != [] && got + |body| <= |file| && body == file[got..got + |body|]
  }

  lemma ServerFetchesSlices(file: Bytes)
    requires |file| < U64_LIMIT
    ensures FetchesSlices(file, Fetched(file))
  {
    forall got: nat, end | Satisfiable(|file|, got, end)
      ensures var body := Received(Serve(file, Ask(got, end), true));
        body != [] && got + |body| <= |file| && body == file[got..got + |body|]
    {
      AskServes(file, got, end);
    }
  }

  /** The served slices are the file, in order and without gaps, and each request makes progress. */
  lemma {:induction false} DownloadIsPrefix(file: Bytes, fetch: (nat, Option<nat>) -> Bytes, got: nat, ends: seq<Option<nat>>)
    requires FetchesSlices(file, fetch) && got <= |file| && AllSatisfiable(fetch, |file|, got, ends)
    ensures var d := Download(fetch, got, ends);
      |ends| <= |d| && got + |d| <= |file| && d == file[got..got + |d|]
    decreases |ends|
  {
    if ends == [] {
    } else {
      var next := got + |fetch(got, ends[0])|;
      DownloadIsPrefix(file, fetch, next, ends[1..]);
      var end := next + |Download(fetch, next, ends[1..])|;
      assert file[got..next] + file[next..end] == file[got..end];
    }
  }

  /** A download can go on exactly until it has the whole file: then the next request is a 416, and
      the slices concatenate to the file; it takes at most one request for each byte. */
  lemma DownloadEndsWithFile(file: Bytes, ends: seq<Option<nat>>, end: Option<nat>)
    requires |file| < U64_LIMIT && AllSatisfiable(Fetched(file), |file|, 0, ends)
    requires end.Some? ==> |file| <= end.value < U64_LIMIT
    ensures var d := Download(Fetched(file), 0, ends);
      |ends| <= |file| && (Serve(file, Ask(|d|, end), true) == RangeError(|file|) <==> d == file)
  {
    ServerFetchesSlices(file);
    DownloadIsPrefix(file, Fetched(file), 0, ends);
    AskServes(file, |Download(Fetched(file), 0, ends)|, end);
  }

  lemma PrefixServed(file: Bytes, k: nat)
    requires 0 < k < |file| < U64_LIMIT
    ensures Received(Serve(file, Some(UNIT + Print(0) + "-" + Print(k - 1)), true)) == file[..k]
  {
    AskServes(file, 0, Some(k - 1));
  }

  lemma SuffixParses(n: nat, total: nat)
    requires 0 < n <= total < U64_LIMIT
    ensures ParseRange(Some(UNIT + "-" + Print(n)), total) == Part(total - n, total - 1)
  {
    PrintParses(n);
    SpecParses("", Print(n), total);
    assert UNIT + "" + "-" + Print(n) == UNIT + "-" + Print(n);
  }

  lemma SuffixServed(file: Bytes, n: nat)
    requires 0 < n <= |file| < U64_LIMIT
    ensures Received(Serve(file, Some(UNIT + "-" + Print(n)), true)) == file[|file| - n..]
  {
    SuffixParses(n, |file|);
    PartServes(file, Some(UNIT + "-" + Print(n)), |file| - n, |file| - 1);
  }

  /** A prefix and the suffix that matches it rebuild the file. */
  lemma PrefixPlusSuffix(file: Bytes, k: nat)
    requires 0 < k < |file| < U64_LIMIT
    ensures Received(Serve(file, Some(UNIT + Print(0) + "-" + Print(k - 1)), true))
          + Received(Serve(file, Some(UNIT + "-" + Print(|file| - k)), true)) == file
  {
    PrefixServed(file, k);
    SuffixServed(file, |file| - k);
    assert file[..k] + file[|file| - (|file| - k)..] == file;
  }
}
