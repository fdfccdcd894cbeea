/** Which bytes a download request selects, and the loop that streams them out of 32 KiB
    records. */
module RangeStream {
  import opened Messages
  import opened RecordFile

  const MAX_UINT64 := 0xFFFF_FFFF_FFFF_FFFF

  predicate IsDigit(c: char) {
    '0' <= c <= '9'
  }

  function DigitValue(c: char): nat
    requires IsDigit(c)
  {
    (c - '0') as nat
  }

  predicate AllDigits(s: string) {
    forall i :: 0 <= i < |s| ==> IsDigit(s[i])
  }

  function DecimalValue(s: string): nat
    requires AllDigits(s)
  {
    if s == "" then 0 else DecimalValue(s[..|s| - 1]) * 10 + DigitValue(s[|s| - 1])
  }

  /** An unsigned 64-bit decimal that fills the whole string. */
  function Number(s: string): Option<nat> {
    if s != "" && AllDigits(s) && DecimalValue(s) <= MAX_UINT64 then Some(DecimalValue(s)) else None
  }

  /** The decimal digits of a number. */
  function Decimal(n: nat): (s: string)
    ensures s != "" && AllDigits(s) && DecimalValue(s) == n
  {
    var last := ('0' as int + n % 10) as char;
    if n < 10 then [last] else
      var s := Decimal(n / 10) + [last];
      assert s[..|s| - 1] == Decimal(n / 10);
      s
  }

  /** `Slice(begin, length, partial)` selects bytes begin .. begin + length - 1; `Rejected` is the
      HTTP status of an unusable range. */
  datatype Selection = Slice(begin: nat, length: nat, partial: bool) | Rejected(status: nat)

  const UNIT := "bytes="

  /** The index of the first `c` at or after `i`, or the length of the string. */
  function Find(s: string, c: char, i: nat): (j: nat)
    requires i <= |s|
    ensures i <= j <= |s|
    ensures forall k :: i <= k < j ==> s[k] != c
    ensures j < |s| ==> s[j] == c
    decreases |s| - i
  {
    if i == |s| || s[i] == c then i else Find(s, c, i + 1)
  }

  function Bounded(begin: nat, finish: nat, total: nat): Selection {
    if begin < total && begin <= finish then Slice(begin, finish - begin + 1, true) else Rejected(416)
  }

  function SelectRange(range: string, total: nat): (r: Selection)
    ensures r.Slice? ==> r.begin + r.length <= total && (r.partial ==> r.length > 0)
  {
    if range == "" then Slice(0, total, false)
    else if !(UNIT <= range) || Find(range, ',', 0) < |range| then Rejected(416)
    else
      var dash := Find(range, '-', |UNIT|);
      if dash == |range| || total == 0 then Rejected(416)
      else
        var first, last := range[|UNIT|..dash], range[dash + 1..];
        if first == "" then
          var suffix := Number(last);
          if suffix.None? then Rejected(400)
          else if suffix.value == 0 then Rejected(416)
          else Bounded(total - Min(total, suffix.value), total - 1, total)
        else
          var begin := Number(first);
          if begin.None? then Rejected(400)
          else if last == "" then Bounded(begin.value, total - 1, total)
          else
            var finish := Number(last);
            if finish.None? then Rejected(400) else Bounded(begin.value, Min(total - 1, finish.value), total)
  }

  lemma {:induction false} FindSkips(s: string, c: char, i: nat, j: nat)
    requires i <= j <= |s| && (forall k :: i <= k < j ==> s[k] != c) && (j < |s| ==> s[j] == c)
    ensures Find(s, c, i) == j
    decreases j - i
  {
    if i < j {
      FindSkips(s, c, i + 1, j);
    }
  }

  /** A range made of its two parts is taken apart again. */
  lemma Dissect(first: string, last: string)
    requires AllDigits(first) && AllDigits(last)
    ensures var range := UNIT + first + "-" + last;
            && UNIT <= range && range != "" && Find(range, ',', 0) == |range|
            && var dash := Find(range, '-', |UNIT|);
               dash < |range| && range[|UNIT|..dash] == first && range[dash + 1..] == last
  {
    var range := UNIT + first + "-" + last;
    var dash := |UNIT| + |first|;
    assert range[dash] == '-' && range[|UNIT|..dash] == first && range[dash + 1..] == last && range[..|UNIT|] == UNIT;
    assert forall k :: |UNIT| <= k < dash ==> range[k] == first[k - |UNIT|];
    assert forall k :: dash < k < |range| ==> range[k] == last[k - dash - 1];
    FindSkips(range, '-', |UNIT|, dash);
    FindSkips(range, ',', 0, |range|);
  }

  /** "bytes=a-b" selects bytes a to b, clipped to the file. */
  lemma ClosedRange(a: nat, b: nat, total: nat)
    requires a <= MAX_UINT64 && b <= MAX_UINT64
    ensures SelectRange(UNIT + Decimal(a) + "-" + Decimal(b), total) ==
            if a <= b && a < total then Slice(a, Min(b, total - 1) - a + 1, true) else Rejected(416)
  {
    Dissect(Decimal(a), Decimal(b));
  }

  /** "bytes=a-" selects everything from byte a on. */
  lemma OpenRange(a: nat, total: nat)
    requires a <= MAX_UINT64
    ensures SelectRange(UNIT + Decimal(a) + "-" + "", total) == if a < total then Slice(a, total - a, true) else Rejected(416)
  {
    Dissect(Decimal(a), "");
  }

  /** "bytes=-n" selects the last n bytes, or the whole file if it is shorter. */
  lemma SuffixRange(n: nat, total: nat)
    requires n <= MAX_UINT64
    ensures SelectRange(UNIT + "" + "-" + Decimal(n), total) ==
            if n > 0 && total > 0 then Slice(total - Min(n, total), Min(n, total), true) else Rejected(416)
  {
    Dissect("", Decimal(n));
  }

  /** The Content-Range header of a partial answer. */
  function ContentRange(selected: Selection, total: nat): Option<string> {
    if selected.Slice? && selected.partial && selected.length > 0
    then Some("bytes " + Decimal(selected.begin) + "-" + Decimal(selected.begin + selected.length - 1) + "/" + Decimal(total))
    else None
  }

  /** The header names the bytes that were selected, however the request put it: asking for the
      range it states selects the same bytes. */
  lemma ContentRangeNamesSelection(range: string, total: nat)
    requires total <= MAX_UINT64 && SelectRange(range, total).Slice? && SelectRange(range, total).partial
    ensures var selected := SelectRange(range, total);
            var first, last := Decimal(selected.begin), Decimal(selected.begin + selected.length - 1);
            && ContentRange(selected, total) == Some("bytes " + first + "-" + last + "/" + Decimal(total))
            && SelectRange(UNIT + first + "-" + last, total) == selected
  {
    hide SelectRange, Decimal;
    var selected := SelectRange(range, total);
    ClosedRange(selected.begin, selected.begin + selected.length - 1, total);
  }

  /** The chunk a read at `base` yields. */
  function ChunkAt(content: bytes, base: nat): bytes
    requires base <= |content|
  {
    content[base..Min(base + CHUNK, |content|)]
  }

  /** `read(i, base)` is the answer of the i-th read, None when the file has become unavailable. */
  ghost predicate Faithful(read: (nat, nat) -> Option<bytes>, content: bytes) {
    forall i: nat, base: nat :: base % CHUNK == 0 && base < |content| && read(i, base).Some? ==> read(i, base).value == ChunkAt(content, base)
  }

  /** Stream the selected bytes: each round reads the record that holds the next byte and
      sends what of it is still wanted. */
  method Stream(read: (nat, nat) -> Option<bytes>, ghost content: bytes, begin: nat, length: nat)
    returns (sent: bytes, complete: bool)
    requires Faithful(read, content) && begin + length <= |content|
    ensures |sent| <= length && sent == content[begin..begin + |sent|]
    ensures complete ==> sent == content[begin..begin + length]
    ensures (forall i: nat, base: nat :: base % CHUNK == 0 && base < |content| ==> read(i, base).Some?) ==> complete
  {
    sent := [];
    var offset, remaining, round := begin, length, 0;
    while remaining > 0
      invariant 0 <= remaining && offset + remaining == begin + length && offset == begin + |sent|
      invariant sent == content[begin..offset]
      decreases remaining
    {
      var base := offset / CHUNK * CHUNK;
      assert base % CHUNK == 0 && base <= offset < base + CHUNK;
      var chunk := read(round, base);
      if chunk.None? {
        return sent, false;
      }
      var skip := offset - base;
      if skip >= |chunk.value| {
        return sent, false;
      }
      var count := Min(|chunk.value| - skip, remaining);
      SliceOfSlice(content, base, Min(base + CHUNK, |content|), skip, skip + count);
      sent := sent + chunk.value[skip..skip + count];
      offset, remaining, round := offset + count, remaining - count, round + 1;
    }
    return sent, true;
  }
}
