/**
  The framed log a pod writes (backend/app/scripts/entrypoint.sh) and the parser that takes it apart
  (_parse_framed_output in event_mapper.py). A byte is a char here; decoding to text is not modelled.
 */
module FramedOutput {
  import opened Options

  type Bytes = seq<char>

  const STDOUT: Bytes := "STDOUT "
  const STDERR: Bytes := "STDERR "
  const NEWLINE: Bytes := "\n"

  // ---- Python's bytes.index, slices and int()

  predicate MatchAt(s: Bytes, needle: Bytes, i: nat) {
    i + |needle| <= |s| && forall k | 0 <= k < |needle| :: s[i + k] == needle[k]
  }

  function FindFrom(s: Bytes, needle: Bytes, i: nat): (r: Option<nat>)
    ensures r.Some? ==> i <= r.value && r.value + |needle| <= |s|
    decreases |s| - i
  {
    if i + |needle| > |s| then None
    else if MatchAt(s, needle, i) then Some(i)
    else FindFrom(s, needle, i + 1)
  }

  /** A bound as Python reads it: a negative one counts from the end, and stops at the start. */
  function Adjust(i: int, length: nat): nat {
    if i >= 0 then i else if i + length >= 0 then i + length else 0
  }

  /** s.index(needle, start), which raises where this is None. */
  function Index(s: Bytes, needle: Bytes, start: int): Option<nat> {
    FindFrom(s, needle, Adjust(start, |s|))
  }

  /** s[from:to]. */
  function Slice(s: Bytes, from: nat, to: int): Bytes {
    var end := if Adjust(to, |s|) <= |s| then Adjust(to, |s|) else |s|;
    if from < end then s[from..end] else []
  }

  predicate IsDigit(c: char) { '0' <= c <= '9' }

  predicate IsSpace(c: char) { c == ' ' || '\t' <= c <= '\r' }

  function StripLeft(s: Bytes): Bytes { if s != [] && IsSpace(s[0]) then StripLeft(s[1..]) else s }

  function StripRight(s: Bytes): Bytes {
    if s != [] && IsSpace(s[|s| - 1]) then StripRight(s[..|s| - 1]) else s
  }

  /** One or more digits, with single underscores between them. */
  function Digits(s: Bytes): Option<nat> {
    if s == [] || !IsDigit(s[|s| - 1]) then None
    else
      var last := (s[|s| - 1] - '0') as nat;
      if |s| == 1 then Some(last)
      else
        var rest := if s[|s| - 2] == '_' then s[..|s| - 2] else s[..|s| - 1];
        match Digits(rest)
        case None => None
        case Some(n) => Some(10 * n + last)
  }

  /** int(s), which raises where this is None. */
  function ParseInt(s: Bytes): Option<int> {
    var t := StripRight(StripLeft(s));
    if t == [] then None
    else
      var digits := Digits(if t[0] == '+' || t[0] == '-' then t[1..] else t);
      if digits.None? then None
      else
        var n: int := digits.value;
        Some(if t[0] == '-' then -n else n)
  }

  // ---- the parser

  /** The end of the first header line at or after start, and the length it gives; None where the code raises. */
  function ParseHeader(logs: Bytes, marker: Bytes, start: int): Option<(nat, int)> {
    match Index(logs, marker, start)
    case None => None
    case Some(at) =>
      match Index(logs, NEWLINE, at + |marker|)
      case None => None
      case Some(nl) =>
        match ParseInt(logs[at + |marker|..nl])
        case None => None
        case Some(length) => Some((nl, length))
  }

  /** The bytes the first marker at or after start frames, and where they end. */
  function ParseStream(logs: Bytes, marker: Bytes, start: int): Option<(Bytes, int)> {
    match ParseHeader(logs, marker, start)
    case None => None
    case Some((nl, length)) => Some((Slice(logs, nl + 1, nl + 1 + length), nl + 1 + length))
  }

  /** Two streams, each under its marker; two empty ones for anything that cannot be taken apart. */
  function ParseTwo(logs: Bytes, first: Bytes, second: Bytes): (Bytes, Bytes) {
    match ParseStream(logs, first, 0)
    case None => ([], [])
    case Some((out, end)) =>
      match ParseStream(logs, second, end)
      case None => ([], [])
      case Some((err, _)) => (out, err)
  }

  /** _parse_framed_output, total on every input. */
  function ParseFramedOutput(logs: Bytes): (Bytes, Bytes) { ParseTwo(logs, STDOUT, STDERR) }

  // ---- the writer

  function Dec(n: nat): Bytes {
    if n < 10 then [('0' as int + n) as char] else Dec(n / 10) + [('0' as int + n % 10) as char]
  }

  function Frame(marker: Bytes, body: Bytes): Bytes { marker + Dec(|body|) + NEWLINE + body }

  const MAX_STREAM_BYTES: nat := 262144

  function Notice(stream: Bytes): Bytes {
    "[" + stream + " truncated: showing the first " + Dec(MAX_STREAM_BYTES) + " bytes]"
  }

  /** What emit shows of a captured stream. */
  function Shown(stream: Bytes, source: Bytes): Bytes {
    if |source| <= MAX_STREAM_BYTES then source
    else source[..MAX_STREAM_BYTES] + NEWLINE + Notice(stream) + NEWLINE
  }

  /** emit: the size it prints is computed apart from the bytes it copies. */
  function Emit(marker: Bytes, stream: Bytes, source: Bytes): Bytes {
    if |source| <= MAX_STREAM_BYTES then marker + Dec(|source|) + NEWLINE + source
    else
      marker + Dec(MAX_STREAM_BYTES + |Notice(stream)| + 2) + NEWLINE
      + source[..MAX_STREAM_BYTES] + NEWLINE + Notice(stream) + NEWLINE
  }

  /** The log of a container that ran a command. */
  function EntrypointLog(out: Bytes, err: Bytes): Bytes {
    Emit(STDOUT, "stdout", out) + Emit(STDERR, "stderr", err)
  }

  // ---- numbers survive

  lemma {:induction false} DecIsDigits(n: nat)
    ensures Dec(n) != [] && forall c | c in Dec(n) :: IsDigit(c)
    ensures Digits(Dec(n)) == Some(n)
  {
    if n >= 10 {
      DecIsDigits(n / 10);
      var d := Dec(n);
      assert d[..|d| - 1] == Dec(n / 10);
      assert d[|d| - 2] in Dec(n / 10);
    }
  }

  lemma ParseDec(n: nat)
    ensures ParseInt(Dec(n)) == Some(n)
  {
    DecIsDigits(n);
    DigitsStay(Dec(n));
  }

  /** Digits have no space to strip and no sign. */
  lemma DigitsStay(d: Bytes)
    requires d != [] && forall c | c in d :: IsDigit(c)
    ensures StripRight(StripLeft(d)) == d && d[0] != '+' && d[0] != '-'
  {
    assert d[0] in d && d[|d| - 1] in d;
  }

  // ---- the markers cannot overlap what comes before them

  ghost predicate Contains(s: Bytes, needle: Bytes) { exists i: nat :: MatchAt(s, needle, i) }

  /** Neither marker starts inside another: its first letter occurs in it only once. */
  predicate StartsAfresh(marker: Bytes) {
    marker != [] && forall k | 0 < k < |marker| :: marker[k] != marker[0]
  }

  lemma NoEarlierMatch(before: Bytes, marker: Bytes, tail: Bytes, j: nat)
    requires StartsAfresh(marker) && !Contains(before, marker) && j < |before|
    ensures !MatchAt(before + marker + tail, marker, j)
  {
    var s := before + marker + tail;
    if j + |marker| <= |before| {
      assert !MatchAt(before, marker, j);
      var k :| 0 <= k < |marker| && before[j + k] != marker[k];
      assert s[j + k] == before[j + k];
    } else if j + |marker| <= |s| {
      var k := |before| - j;
      assert s[j + k] == marker[0] != marker[k];
    }
  }

  /** A marker that is found, followed by a decimal length and a newline, is a header with that length. */
  lemma HeaderAt(logs: Bytes, marker: Bytes, start: nat, at: nat, n: nat)
    requires start <= at && MatchAt(logs, marker, at) && forall j | start <= j < at :: !MatchAt(logs, marker, j)
    requires MatchAt(logs, Dec(n), at + |marker|) && MatchAt(logs, NEWLINE, at + |marker| + |Dec(n)|)
    ensures ParseHeader(logs, marker, start) == Some((at + |marker| + |Dec(n)|, n))
  {
    IndexIs(logs, marker, start, at);
    NewlineAfter(logs, n, at + |marker|);
    ParseDec(n);
    CutIs(logs, Dec(n), at + |marker|);
  }

  lemma CutIs(s: Bytes, part: Bytes, at: nat)
    requires MatchAt(s, part, at)
    ensures s[at..at + |part|] == part
  {
  }

  /** The search finds the first match. */
  lemma {:induction false} IndexIs(s: Bytes, needle: Bytes, start: nat, at: nat)
    requires start <= at && MatchAt(s, needle, at) && forall j | start <= j < at :: !MatchAt(s, needle, j)
    ensures Index(s, needle, start) == Some(at)
    decreases at - start
  {
    if start < at {
      assert !MatchAt(s, needle, start);
      IndexIs(s, needle, start + 1, at);
    }
  }

  lemma SliceIs(s: Bytes, part: Bytes, at: nat)
    requires MatchAt(s, part, at)
    ensures Slice(s, at, at + |part|) == part
  {
  }

  lemma NewlineAfter(s: Bytes, n: nat, idx: nat)
    requires MatchAt(s, Dec(n), idx) && MatchAt(s, NEWLINE, idx + |Dec(n)|)
    ensures Index(s, NEWLINE, idx) == Some(idx + |Dec(n)|)
  {
    var digits := Dec(n);
    DecIsDigits(n);
    forall j | idx <= j < idx + |digits| ensures !MatchAt(s, NEWLINE, j) {
      assert s[idx + (j - idx)] == digits[j - idx] && digits[j - idx] in digits;
      assert s[j + 0] != NEWLINE[0];
    }
    IndexIs(s, NEWLINE, idx, idx + |digits|);
  }

  /** logs frames body under the first marker at or after start, which stands at at. */
  ghost predicate FramedAt(logs: Bytes, marker: Bytes, start: nat, at: nat, body: Bytes) {
    && start <= at && MatchAt(logs, marker, at) && (forall j | start <= j < at :: !MatchAt(logs, marker, j))
    && MatchAt(logs, Dec(|body|), at + |marker|) && MatchAt(logs, NEWLINE, at + |marker| + |Dec(|body|)|)
    && MatchAt(logs, body, at + |marker| + |Dec(|body|)| + 1)
  }

  /** A frame after text without its marker stands right after that text, whatever its bytes are. */
  lemma FrameStands(head: Bytes, before: Bytes, marker: Bytes, body: Bytes, tail: Bytes)
    requires StartsAfresh(marker) && !Contains(before, marker)
    ensures FramedAt(head + before + Frame(marker, body) + tail, marker, |head|, |head| + |before|, body)
  {
    var digits := Dec(|body|);
    var logs := head + before + (marker + digits + NEWLINE + body) + tail;
    Regroup(head, before, marker, digits, body, tail);
    NoMatchInBetween(head, before, marker, digits + NEWLINE + body + tail);
    FramePieces(logs, head + before, marker, digits, body, tail);
  }

  lemma FramedParses(logs: Bytes, marker: Bytes, start: nat, at: nat, body: Bytes)
    requires FramedAt(logs, marker, start, at, body)
    ensures ParseStream(logs, marker, start) == Some((body, at + |Frame(marker, body)|))
  {
    HeaderAt(logs, marker, start, at, |body|);
    HeaderYields(logs, marker, start, at + |marker| + |Dec(|body|)|, body);
  }

  /** A stream framed after text without its marker is parsed back, whatever its bytes are. */
  lemma FrameIsParsed(head: Bytes, before: Bytes, marker: Bytes, body: Bytes, tail: Bytes)
    requires StartsAfresh(marker) && !Contains(before, marker)
    ensures ParseStream(head + before + Frame(marker, body) + tail, marker, |head|)
         == Some((body, |head| + |before| + |Frame(marker, body)|))
  {
    hide *;
    FrameStands(head, before, marker, body, tail);
    FramedParses(head + before + Frame(marker, body) + tail, marker, |head|, |head| + |before|, body);
  }

  lemma HeaderYields(logs: Bytes, marker: Bytes, start: int, nl: nat, body: Bytes)
    requires ParseHeader(logs, marker, start) == Some((nl, |body|)) && MatchAt(logs, body, nl + 1)
    ensures ParseStream(logs, marker, start) == Some((body, nl + 1 + |body|))
  {
    SliceIs(logs, body, nl + 1);
  }

  lemma Regroup(head: Bytes, before: Bytes, marker: Bytes, digits: Bytes, body: Bytes, tail: Bytes)
    ensures head + before + (marker + digits + NEWLINE + body) + tail
         == head + (before + marker + (digits + NEWLINE + body + tail))
  {
  }

  lemma NoMatchInBetween(head: Bytes, before: Bytes, marker: Bytes, rest: Bytes)
    requires StartsAfresh(marker) && !Contains(before, marker)
    ensures forall j | |head| <= j < |head| + |before| :: !MatchAt(head + (before + marker + rest), marker, j)
  {
    forall j | |head| <= j < |head| + |before| ensures !MatchAt(head + (before + marker + rest), marker, j) {
      NoEarlierMatch(before, marker, rest, j - |head|);
      ShiftMatch(head, before + marker + rest, marker, j - |head|);
    }
  }

  lemma FramePieces(logs: Bytes, front: Bytes, marker: Bytes, digits: Bytes, body: Bytes, tail: Bytes)
    requires logs == front + (marker + digits + NEWLINE + body) + tail
    ensures MatchAt(logs, marker, |front|) && MatchAt(logs, digits, |front| + |marker|)
    ensures MatchAt(logs, NEWLINE, |front| + |marker| + |digits|)
    ensures MatchAt(logs, body, |front| + |marker| + |digits| + 1)
  {
    MatchAfter(logs, front, marker, digits + NEWLINE + body + tail);
    MatchAfter(logs, front + marker, digits, NEWLINE + body + tail);
    MatchAfter(logs, front + marker + digits, NEWLINE, body + tail);
    MatchAfter(logs, front + marker + digits + NEWLINE, body, tail);
  }

  lemma ShiftMatch(head: Bytes, s: Bytes, needle: Bytes, j: nat)
    ensures MatchAt(head + s, needle, |head| + j) <==> MatchAt(s, needle, j)
  {
    if j + |needle| <= |s| {
      assert forall k | 0 <= k < |needle| :: (head + s)[|head| + j + k] == needle[k] <==> s[j + k] == needle[k];
    }
  }

  lemma MatchAfter(s: Bytes, before: Bytes, needle: Bytes, after: Bytes)
    requires s == before + needle + after
    ensures MatchAt(s, needle, |before|)
  {
  }

  /**
    Round trip: both streams come back byte for byte, even when they hold markers themselves, as long as the text
    before each frame does not.
   */
  lemma RoundTrip(prefix: Bytes, out: Bytes, sep: Bytes, err: Bytes, rest: Bytes)
    requires !Contains(prefix, STDOUT) && !Contains(sep, STDERR)
    ensures ParseFramedOutput(prefix + Frame(STDOUT, out) + sep + Frame(STDERR, err) + rest) == (out, err)
  {
    MarkersStartAfresh();
    MarkedRoundTrip(STDOUT, STDERR, prefix, out, sep, err, rest);
  }

  lemma MarkedRoundTrip(first: Bytes, second: Bytes, prefix: Bytes, out: Bytes, sep: Bytes, err: Bytes, rest: Bytes)
    requires StartsAfresh(first) && StartsAfresh(second) && !Contains(prefix, first) && !Contains(sep, second)
    ensures ParseTwo(prefix + Frame(first, out) + sep + Frame(second, err) + rest, first, second) == (out, err)
  {
    FramesParse(prefix, Frame(first, out), first, out, sep, Frame(second, err), second, err, rest);
  }

  lemma FramesParse(prefix: Bytes, a: Bytes, first: Bytes, out: Bytes, sep: Bytes, b: Bytes, second: Bytes, err: Bytes,
                    rest: Bytes)
    requires StartsAfresh(first) && StartsAfresh(second) && !Contains(prefix, first) && !Contains(sep, second)
    requires a == Frame(first, out) && b == Frame(second, err)
    ensures ParseTwo(prefix + a + sep + b + rest, first, second) == (out, err)
  {
    hide *;
    FirstStream(prefix, a, first, out, sep, b, rest);
    SecondStream(prefix, a, sep, b, second, err, rest);
    StreamsCombine(prefix + a + sep + b + rest, first, second, out, |prefix| + |a|, err, |prefix| + |a| + |sep| + |b|);
  }

  lemma SecondStream(prefix: Bytes, first: Bytes, sep: Bytes, second: Bytes, marker: Bytes, body: Bytes, rest: Bytes)
    requires second == Frame(marker, body) && StartsAfresh(marker) && !Contains(sep, marker)
    ensures ParseStream(prefix + first + sep + second + rest, marker, |prefix| + |first|)
         == Some((body, |prefix| + |first| + |sep| + |second|))
  {
    hide *;
    FrameIsParsed(prefix + first, sep, marker, body, rest);
  }

  lemma FirstStream(prefix: Bytes, first: Bytes, marker: Bytes, body: Bytes, sep: Bytes, second: Bytes, rest: Bytes)
    requires first == Frame(marker, body) && StartsAfresh(marker) && !Contains(prefix, marker)
    ensures ParseStream(prefix + first + sep + second + rest, marker, 0) == Some((body, |prefix| + |first|))
  {
    hide *;
    RegroupFrames(prefix, first, sep, second, rest);
    FrameIsParsed([], prefix, marker, body, sep + second + rest);
  }

  lemma StreamsCombine(logs: Bytes, first: Bytes, second: Bytes, out: Bytes, outEnd: int, err: Bytes, errEnd: int)
    requires ParseStream(logs, first, 0) == Some((out, outEnd)) && ParseStream(logs, second, outEnd) == Some((err, errEnd))
    ensures ParseTwo(logs, first, second) == (out, err)
  {
  }

  lemma RegroupFrames(a: Bytes, b: Bytes, c: Bytes, d: Bytes, e: Bytes)
    ensures a + b + c + d + e == [] + a + b + (c + d + e)
  {
  }

  lemma MarkersStartAfresh()
    ensures StartsAfresh(STDOUT) && StartsAfresh(STDERR)
  {
  }

  lemma PadFrames(a: Bytes, b: Bytes)
    ensures a + b == [] + a + [] + b + []
  {
  }

  lemma EmitIsFrame(marker: Bytes, stream: Bytes, source: Bytes)
    ensures Emit(marker, stream, source) == Frame(marker, Shown(stream, source))
  {
    if |source| > MAX_STREAM_BYTES {
      AppendFour(marker + Dec(|Shown(stream, source)|) + NEWLINE, source[..MAX_STREAM_BYTES], NEWLINE, Notice(stream), NEWLINE);
    }
  }

  lemma AppendFour(a: Bytes, b: Bytes, c: Bytes, d: Bytes, e: Bytes)
    ensures a + b + c + d + e == a + (b + c + d + e)
  {
  }

  lemma LimitInDecimal()
    ensures Dec(262144) == "262144"
  {
    assert Dec(26) == "26" && Dec(262) == "262" && Dec(2621) == "2621" && Dec(26214) == "26214";
  }

  /** What is shown of a stream: all of it up to 262144 bytes, and otherwise its start and a notice. */
  lemma ShownIs(stream: Bytes, source: Bytes)
    ensures |source| <= 262144 ==> Shown(stream, source) == source
    ensures |source| > 262144 ==>
      Shown(stream, source)
      == source[..262144] + "\n" + ("[" + stream + " truncated: showing the first " + "262144" + " bytes]") + "\n"
  {
    LimitInDecimal();
  }

  /** What the entrypoint writes, marker by marker. */
  lemma EntrypointWrites(out: Bytes, err: Bytes)
    ensures var shownOut, shownErr := Shown("stdout", out), Shown("stderr", err);
      EntrypointLog(out, err) == ("STDOUT " + Dec(|shownOut|) + "\n" + shownOut) + ("STDERR " + Dec(|shownErr|) + "\n" + shownErr)
  {
    EmitIsFrame(STDOUT, "stdout", out);
    EmitIsFrame(STDERR, "stderr", err);
  }

  /** What a script printed comes back whole, or cut at the limit with the notice; nothing in it can shift the frames. */
  lemma EntrypointRoundTrip(out: Bytes, err: Bytes)
    ensures ParseFramedOutput(EntrypointLog(out, err)) == (Shown("stdout", out), Shown("stderr", err))
  {
    EmitIsFrame(STDOUT, "stdout", out);
    EmitIsFrame(STDERR, "stderr", err);
    RoundTrip([], Shown("stdout", out), [], Shown("stderr", err), []);
    var first, second := Frame(STDOUT, Shown("stdout", out)), Frame(STDERR, Shown("stderr", err));
    PadFrames(first, second);
  }
}
