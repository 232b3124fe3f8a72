/** Entity tags and `If-Range` (`src/server.rs`): when a range request may be answered with a part. */
module Validators {
  import opened Common
  import opened Ranges
  import opened RangeTheorems
  import opened Tokens

  /** `{:x}`. */
  function PrintHex(n: nat): string {
    if n < 16 then [HexDigit(n)] else PrintHex(n / 16) + [HexDigit(n % 16)]
  }

  function HexNumber(s: string): nat {
    if s == [] then 0 else 16 * HexNumber(s[..|s| - 1]) + HexValue(s[|s| - 1])
  }

  /** The entity tag of a file of `total` bytes modified at `modified` milliseconds. */
  function ETag(total: nat, modified: nat): string {
    "\"" + (PrintHex(total) + "-" + PrintHex(modified)) + "\""
  }

  /** `if_range_matches`: `date` is what parsing the header as an HTTP date gives. */
  predicate IfRangeMatches(header: Option<string>, etag: string, modified: Instant, date: Option<Instant>) {
    if header.None? then true
    else if header.value != [] && header.value[0] == '"' then header.value == etag
    else date.Some? && modified <= date.value + SECOND
  }

  lemma {:induction false} PrintHexRoundTrip(n: nat)
    ensures HexNumber(PrintHex(n)) == n && '-' !in PrintHex(n)
  {
    HexDigitRoundTrip(n % 16);
    if n < 16 {
      assert PrintHex(n)[..0] == [] && HexNumber([]) == 0;
    } else {
      PrintHexRoundTrip(n / 16);
      assert PrintHex(n)[..|PrintHex(n)| - 1] == PrintHex(n / 16);
    }
  }

  /** `s` is how `n` is written in lower-case hexadecimal, without leading zeros. */
  ghost predicate WritesHex(s: string, n: nat) {
    && s != [] && (s[0] == '0' ==> |s| == 1) && HexNumber(s) == n
    && forall c :: c in s ==> c in "0123456789abcdef"
  }

  lemma LowerCase(d: nat)
    requires d < 16
    ensures HexDigit(d) == "0123456789abcdef"[d]
  {}

  lemma {:induction false} PrintHexWrites(n: nat)
    ensures WritesHex(PrintHex(n), n)
    ensures n > 0 ==> PrintHex(n)[0] != '0'
  {
    PrintHexRoundTrip(n);
    LowerCase(n % 16);
    if n >= 16 {
      PrintHexWrites(n / 16);
    }
  }

  /** The tag is, in quotes, the size and then the modification time in lower-case hexadecimal. */
  lemma ETagText(total: nat, modified: nat)
    ensures exists size, time :: (
      WritesHex(size, total) && WritesHex(time, modified) && ETag(total, modified) == "\"" + size + "-" + time + "\"")
    ensures ETag(255, 4096) == "\"ff-1000\""
  {
    PrintHexWrites(total);
    PrintHexWrites(modified);
    assert ETag(total, modified) == "\"" + PrintHex(total) + "-" + PrintHex(modified) + "\"";
    assert PrintHex(15) == "f" && PrintHex(255) == "ff";
    assert PrintHex(1) == "1" && PrintHex(16) == "10" && PrintHex(256) == "100" && PrintHex(4096) == "1000";
  }

  /** Without a readable `If-Range` the range counts; with a quoted one it counts exactly when that is the file's own tag. */
  lemma QuotedTagServes(file: Bytes, range: Option<string>, text: string, modifiedMs: nat,
                        modified: Instant, date: Option<Instant>)
    requires |file| < U64_LIMIT
    ensures var etag := ETag(|file|, modifiedMs);
      && Serve(file, range, IfRangeMatches(None, etag, modified, date)) == Serve(file, range, true)
      && (text != [] && text[0] == '"' ==>
            Serve(file, range, IfRangeMatches(Some(text), etag, modified, date)) ==
              if text == etag then Serve(file, range, true) else Full(file, |file|))
  {
    ServesSlice(file, range, false);
  }

  /** Two files have the same entity tag exactly when size and modification time agree. */
  lemma ETagExactly(total: nat, modified: nat, total': nat, modified': nat)
    ensures ETag(total, modified) == ETag(total', modified') <==> total == total' && modified == modified'
  {
    var a, b := PrintHex(total) + "-" + PrintHex(modified), PrintHex(total') + "-" + PrintHex(modified');
    assert ETag(total, modified)[1..|a| + 1] == a;
    if ETag(total, modified) == ETag(total', modified') {
      assert |a| == |b| && ETag(total', modified')[1..|b| + 1] == b;
      PrintHexRoundTrip(total);
      PrintHexRoundTrip(total');
      PrintHexRoundTrip(modified);
      PrintHexRoundTrip(modified');
      FirstDash(PrintHex(total), PrintHex(modified));
      FirstDash(PrintHex(total'), PrintHex(modified'));
    }
  }

  /** With an `If-Range` tag from an earlier response the range counts only if the file still has the size
      and modification time of that response; otherwise, whatever the range says, the whole file is sent. */
  lemma StaleTagServesWhole(file: Bytes, range: Option<string>, total': nat, modified': nat,
                            modifiedMs: nat, modified: Instant, date: Option<Instant>)
    requires |file| < U64_LIMIT
    ensures var same := total' == |file| && modified' == modifiedMs;
      var r := Serve(file, range, IfRangeMatches(Some(ETag(total', modified')), ETag(|file|, modifiedMs), modified, date));
      r == if same then Serve(file, range, true) else Full(file, |file|)
  {
    ETagExactly(total', modified', |file|, modifiedMs);
    assert ETag(total', modified')[0] == '"';
    ServesSlice(file, range, false);
  }

  /** With a date in `If-Range` the range counts exactly when the file changed at most a second after it. HTTP dates have
      whole seconds, so the file's own modification time cut to seconds always counts. */
  lemma DatedRangeServes(file: Bytes, range: Option<string>, text: string, etag: string,
                         modified: Instant, date: Option<Instant>)
    requires |file| < U64_LIMIT && (text == [] || text[0] != '"')
    ensures var r := Serve(file, range, IfRangeMatches(Some(text), etag, modified, date));
      && r == (if date.Some? && modified <= date.value + SECOND then Serve(file, range, true) else Full(file, |file|))
      && (date == Some(modified - modified % SECOND) ==> r == Serve(file, range, true))
  {
    ServesSlice(file, range, false);
  }
}
