/** The hop picked from an `X-Forwarded-For` header by scanning commas
    backwards, against splitting the whole header. */
module ForwardedFor {
  import opened Wrappers
  import opened Text

  /** `String.prototype.lastIndexOf(",", from)`: the start is clamped to the
      text, so a negative start still looks at index 0. */
  function LastComma(s: string, from: int): (at: int)
    ensures at == -1 || (0 <= at < |s| && s[at] == ',')
    ensures at <= if from < 0 then 0 else from
    ensures forall j :: 0 <= j < |s| && j <= (if from < 0 then 0 else from) && s[j] == ',' ==> j <= at
    decreases if from < 0 then 0 else if from >= |s| then |s| else from
  {
    if |s| == 0 then -1
    else if from <= 0 then if s[0] == ',' then 0 else -1
    else if from >= |s| then LastComma(s, |s| - 1)
    else if s[from] == ',' then from
    else LastComma(s, from - 1)
  }

  /** `String.prototype.slice` with non-negative bounds. */
  function Slice(s: string, start: nat, end: nat): string {
    var to := if end > |s| then |s| else end;
    if start >= to then "" else s[start..to]
  }

  /** The white space and line terminators `String.prototype.trim` strips. */
  predicate IsSpace(c: char) {
    || '\U{0009}' <= c <= '\U{000D}' || c == ' ' || c == '\U{00A0}' || c == '\U{1680}'
    || '\U{2000}' <= c <= '\U{200A}' || c == '\U{2028}' || c == '\U{2029}' || c == '\U{202F}'
    || c == '\U{205F}' || c == '\U{3000}' || c == '\U{FEFF}'
  }

  function TrimStart(s: string): (t: string)
    ensures |t| <= |s| && t == s[|s| - |t|..]
    ensures forall k :: 0 <= k < |s| - |t| ==> IsSpace(s[k])
    ensures t != "" ==> !IsSpace(t[0])
  {
    if s != "" && IsSpace(s[0]) then
      var t := TrimStart(s[1..]);
      assert s[1..][|s| - 1 - |t|..] == s[|s| - |t|..];
      assert forall k :: 0 < k < |s| ==> s[1..][k - 1] == s[k];
      t
    else s
  }

  function TrimEnd(s: string): (t: string)
    ensures t <= s
    ensures forall k :: |t| <= k < |s| ==> IsSpace(s[k])
    ensures t != "" ==> !IsSpace(t[|t| - 1])
  {
    if s != "" && IsSpace(s[|s| - 1]) then TrimEnd(s[..|s| - 1]) else s
  }

  function Trim(s: string): string {
    TrimEnd(TrimStart(s))
  }

  /** The simple form: `xff.split(",").at(-n)`, trimmed. */
  function HopBySplit(xff: string, n: nat): Option<string>
    requires n >= 1
  {
    var parts := Split(xff, ',');
    if n > |parts| then None else Some(Trim(parts[|parts| - n]))
  }

  /** A missing hop and a blank one both mean: use the socket address. */
  function NonBlank(hop: Option<string>): Option<string> {
    if hop == Some("") then None else hop
  }

  /** Trimming takes white space off both ends, all of it and nothing else. */
  lemma TrimExactly(s: string) returns (from: nat, to: nat)
    ensures from <= to <= |s| && Trim(s) == s[from..to]
    ensures forall i :: 0 <= i < from || to <= i < |s| ==> IsSpace(s[i])
    ensures from < to ==> !IsSpace(s[from]) && !IsSpace(s[to - 1])
  {
    hide IsSpace, TrimStart, TrimEnd;
    var t := TrimStart(s);
    from := |s| - |t|;
    to := from + |TrimEnd(t)|;
    assert Trim(s) == t[..|TrimEnd(t)|] == s[from..to];
    forall i | to <= i < |s|
      ensures IsSpace(s[i])
    {
      assert s[i] == t[i - from];
    }
  }

  /** For every list of hops, written with a comma between any two: the n-th from the
      end, trimmed, or none when there are fewer. */
  lemma WrittenHop(hops: seq<string>, n: nat)
    requires hops != [] && n >= 1 && forall hop :: hop in hops ==> ',' !in hop
    ensures Lead(hops, ',') != ""
    ensures HopBySplit(Lead(hops, ',')[1..], n) == if n > |hops| then None else Some(Trim(hops[|hops| - n]))
  {
    hide Split, Trim, Lead;
    WrittenSplits(hops);
    var xff := Lead(hops, ',')[1..];
    assert Split(xff, ',') == hops;
  }

  lemma WrittenSplits(hops: seq<string>)
    requires hops != [] && forall hop :: hop in hops ==> ',' !in hop
    ensures Lead(hops, ',') != "" && Split(Lead(hops, ',')[1..], ',') == hops
  {
    var all := Lead(hops, ',');
    assert all != "" && all[0] == ',';
    hide Split, Lead;
    SplitLead(hops, ',');
    LeadingSeparator(all[1..], ',');
    assert all == [','] + all[1..];
    assert hops == ([[]] + hops)[1..] == ([[]] + Split(all[1..], ','))[1..] == Split(all[1..], ',');
  }

  /** Everything up to `end` is the pieces not yet passed over. */
  ghost predicate Remaining(xff: string, end: int, passed: nat)
  {
    var parts := Split(xff, ',');
    0 <= end <= |xff| && passed < |parts| &&
    Split(xff[..end], ',') == parts[..|parts| - passed]
  }

  /** A leading comma holds the clamped scan at index 0 once every piece is passed. */
  ghost predicate Stuck(xff: string, end: int, passed: nat)
  {
    end == 0 && xff != "" && xff[0] == ',' && passed >= |Split(xff, ',')|
  }

  lemma SliceIs(s: string, start: nat, end: nat)
    requires end <= |s|
    ensures Slice(s, start, end) == if start <= end then s[start..end] else ""
  {
  }

  /** Held at a leading comma, nothing is left to pick. */
  lemma PickedStuck(xff: string, n: nat)
    requires n >= 1 && Stuck(xff, 0, n - 1)
    ensures NonBlank(Some(Trim(Slice(xff, LastComma(xff, -1) + 1, 0)))) == None
  {
    hide Split;
  }

  /** The last comma before `end` separates the last piece of what remains. */
  lemma LastPiece(xff: string, end: nat)
    requires end <= |xff|
    ensures
      var c := LastComma(xff, end - 1);
      Split(xff[..end], ',') == (if 0 <= c < end then Split(xff[..c], ',') else []) + [Slice(xff, c + 1, end)]
  {
    hide LastComma, Slice, Split;
    var c := LastComma(xff, end - 1);
    if 0 <= c < end {
      PieceAfter(xff, c, end);
    } else {
      OnlyPiece(xff, c, end);
    }
  }

  lemma PieceAfter(xff: string, c: nat, end: nat)
    requires c < end <= |xff| && xff[c] == ',' && forall j :: c < j < end ==> xff[j] != ','
    ensures Split(xff[..end], ',') == Split(xff[..c], ',') + [Slice(xff, c + 1, end)]
  {
    SliceIs(xff, c + 1, end);
    hide Split, Slice;
    SplitWhole(xff[c + 1..end], ',');
    SplitAround(xff[..c], ',', xff[c + 1..end]);
    assert xff[..c] + [','] + xff[c + 1..end] == xff[..end];
  }

  lemma OnlyPiece(xff: string, c: int, end: nat)
    requires end <= |xff| && (c == -1 || c == 0 == end) && forall j :: 0 <= j < end ==> xff[j] != ','
    ensures Split(xff[..end], ',') == [Slice(xff, c + 1, end)]
  {
    SplitWhole(xff[..end], ',');
    hide Split;
    assert Slice(xff, c + 1, end) == xff[..end];
  }

  /** One step of the scan: over one more piece, or held at a leading comma, or
      out of pieces. */
  lemma {:induction false} StepBack(xff: string, end: int, passed: nat)
    requires xff != ""
    requires Remaining(xff, end, passed) || Stuck(xff, end, passed)
    ensures
      var c := LastComma(xff, end - 1);
      if c == -1 then passed + 1 >= |Split(xff, ',')|
      else Remaining(xff, c, passed + 1) || Stuck(xff, c, passed + 1)
  {
    if Remaining(xff, end, passed) {
      StepOver(xff, end, passed);
    } else {
      hide Split;
    }
  }

  lemma StepOver(xff: string, end: int, passed: nat)
    requires xff != "" && Remaining(xff, end, passed)
    ensures
      var c := LastComma(xff, end - 1);
      if c == -1 then passed + 1 >= |Split(xff, ',')|
      else Remaining(xff, c, passed + 1) || Stuck(xff, c, passed + 1)
  {
    var c, parts := LastComma(xff, end - 1), Split(xff, ',');
    LastPiece(xff, end);
    hide Split, LastComma;
    if 0 <= c < end {
      assert Split(xff[..end], ',')[..|parts| - passed - 1] == Split(xff[..c], ',');
      assert Split(xff[..c], ',') == parts[..|parts| - (passed + 1)];
    }
  }

  /** The piece between the last two commas left is the n-th from the end. */
  lemma Picked(xff: string, end: int, n: nat)
    requires n >= 1 && Remaining(xff, end, n - 1)
    ensures n <= |Split(xff, ',')|
    ensures Slice(xff, LastComma(xff, end - 1) + 1, end) == Split(xff, ',')[|Split(xff, ',')| - n]
  {
    hide Split, LastComma, Slice;
    var c := LastComma(xff, end - 1);
    LastPiece(xff, end);
    LastOfSnoc(if 0 <= c < end then Split(xff[..c], ',') else [], Slice(xff, c + 1, end));
    LastOfTake(Split(xff, ','), |Split(xff, ',')| - n + 1);
  }

  lemma LastOfTake<T>(s: seq<T>, k: nat)
    requires 1 <= k <= |s|
    ensures s[..k][|s[..k]| - 1] == s[k - 1]
  {
  }

  lemma LastOfSnoc<T>(s: seq<T>, last: T)
    ensures (s + [last])[|s + [last]| - 1] == last
  {
  }

  /** The hop `n` from the end. `n` counts from 1, as the caller checks. */
  method HopFromEnd(xff: string, n: nat) returns (hop: Option<string>)
    requires xff != "" && n >= 1
    ensures NonBlank(hop) == NonBlank(HopBySplit(xff, n))
    ensures hop.Some? && HopBySplit(xff, n).None? ==> xff[0] == ','
  {
    hide Split, Trim;
    var end: int := |xff|;
    var i := 1;
    assert xff[..|xff|] == xff;
    while i < n
      invariant 1 <= i <= n
      invariant Remaining(xff, end, i - 1) || Stuck(xff, end, i - 1)
    {
      StepBack(xff, end, i - 1);
      end := LastComma(xff, end - 1);
      if end == -1 {
        return None;
      }
      i := i + 1;
    }
    if Remaining(xff, end, n - 1) {
      Picked(xff, end, n);
    } else {
      PickedStuck(xff, n);
    }
    hop := Some(Trim(Slice(xff, LastComma(xff, end - 1) + 1, end)));
  }

  /** `clientIpFromHeaders` up to the port stripping: no header, an empty one, no
      trusted proxy, a missing hop and a blank hop all fall back. */
  method ClientHop(header: Option<string>, trustedProxies: int) returns (hop: Option<string>)
    ensures hop == if trustedProxies > 0 && header.Some?
                   then NonBlank(HopBySplit(header.value, trustedProxies))
                   else None
    ensures hop != Some("")
  {
    if trustedProxies > 0 {
      if header.Some? && header.value != "" {
        var picked := HopFromEnd(header.value, trustedProxies);
        if picked.Some? && picked.value != "" {
          return picked;
        }
      }
    }
    hop := None;
  }
}
