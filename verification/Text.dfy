/** Splitting text on a separator, as `String.prototype.split` does, with the
    facts about cutting at the last separator that a backward scan needs. */
module Text {

  /** The pieces of `s` between separators. Splitting the empty text gives one
      empty piece, and every separator adds one. */
  function Split<T(==)>(s: seq<T>, sep: T): (parts: seq<seq<T>>)
    ensures parts != []
    decreases |s|
  {
    if s == [] then [[]]
    else
      var rest := Split(s[1..], sep);
      if s[0] == sep then [[]] + rest else [[s[0]] + rest[0]] + rest[1..]
  }

  function Occurrences<T(==)>(s: seq<T>, c: T): nat {
    if s == [] then 0 else (if s[0] == c then 1 else 0) + Occurrences(s[1..], c)
  }

  /** `String.prototype.indexOf` of one character. */
  function IndexOf(s: string, c: char): (i: int)
    ensures i == -1 <==> c !in s
    ensures i != -1 ==> 0 <= i < |s| && s[i] == c && c !in s[..i]
  {
    if s == "" then -1
    else if s[0] == c then 0
    else
      var i := IndexOf(s[1..], c);
      assert s == [s[0]] + s[1..];
      if i == -1 then -1
      else
        assert s[..i + 1] == [s[0]] + s[1..][..i];
        i + 1
  }

  lemma {:induction false} SplitCount<T>(s: seq<T>, sep: T)
    ensures |Split(s, sep)| == Occurrences(s, sep) + 1
  {
    if s != [] {
      SplitCount(s[1..], sep);
    }
  }

  lemma {:induction false} SplitWhole<T>(s: seq<T>, sep: T)
    requires sep !in s
    ensures Split(s, sep) == [s]
  {
    if s != [] {
      SplitWhole(s[1..], sep);
      assert [s[0]] + s[1..] == s;
    }
  }

  /** Cutting around one separator cuts the list of pieces there. */
  lemma {:induction false} SplitAround<T>(a: seq<T>, sep: T, b: seq<T>)
    ensures Split(a + [sep] + b, sep) == Split(a, sep) + Split(b, sep)
  {
    if a == [] {
      assert a + [sep] + b == [sep] + b;
    } else {
      assert (a + [sep] + b)[1..] == a[1..] + [sep] + b;
      SplitAround(a[1..], sep, b);
    }
  }

  /** Pieces with the separator put back before each of them. */
  function Lead<T>(parts: seq<seq<T>>, sep: T): seq<T> {
    if parts == [] then [] else [sep] + parts[0] + Lead(parts[1..], sep)
  }

  lemma LeadingSeparator<T>(s: seq<T>, sep: T)
    ensures Split([sep] + s, sep) == [[]] + Split(s, sep)
  {
    assert ([sep] + s)[1..] == s;
  }

  /** Splitting what `Lead` builds gives the pieces back, after an empty one. */
  lemma {:induction false} SplitLead<T>(parts: seq<seq<T>>, sep: T)
    requires forall p :: p in parts ==> sep !in p
    ensures Split(Lead(parts, sep), sep) == [[]] + parts
  {
    hide Split;
    if parts == [] {
      SplitWhole([], sep);
    } else {
      SplitLead(parts[1..], sep);
      SplitWhole(parts[0], sep);
      var rest := Lead(parts[1..], sep);
      assert [sep] + parts[0] + rest == [sep] + (parts[0] + rest);
      LeadingSeparator(parts[0] + rest, sep);
      if parts[1..] == [] {
        assert parts[0] + rest == parts[0];
      } else {
        var after := parts[1] + Lead(parts[2..], sep);
        assert rest == [sep] + after;
        LeadingSeparator(after, sep);
        assert Split(after, sep) == ([[]] + Split(after, sep))[1..] == parts[1..];
        assert parts[0] + rest == parts[0] + [sep] + after;
        SplitAround(parts[0], sep, after);
      }
    }
  }

  lemma SplitStep<T>(s: seq<T>, sep: T)
    requires s != []
    ensures
      var rest := Split(s[1..], sep);
      Split(s, sep) == if s[0] == sep then [[]] + rest else [[s[0]] + rest[0]] + rest[1..]
  {
  }

  lemma LeadStep<T>(first: seq<T>, rest: seq<seq<T>>, sep: T)
    ensures Lead([first] + rest, sep) == [sep] + (first + Lead(rest, sep))
  {
    assert ([first] + rest)[1..] == rest;
    assert [sep] + first + Lead(rest, sep) == [sep] + (first + Lead(rest, sep));
  }

  lemma {:induction false} SplitFree<T>(s: seq<T>, sep: T)
    ensures forall p :: p in Split(s, sep) ==> sep !in p
  {
    if s != [] {
      SplitFree(s[1..], sep);
      var rest := Split(s[1..], sep);
      assert sep !in rest[0];
    }
  }

  /** One more character in front of a text that its pieces spell. */
  lemma LeadMore<T>(x: T, s: seq<T>, rest: seq<seq<T>>, sep: T)
    requires rest != [] && Lead(rest, sep) == [sep] + s
    ensures Lead([[]] + rest, sep) == [sep] + ([sep] + s)
    ensures Lead([[x] + rest[0]] + rest[1..], sep) == [sep] + ([x] + s)
  {
    hide Lead;
    var first, others := rest[0], rest[1..];
    assert rest == [first] + others;
    LeadStep([], rest, sep);
    assert [] + Lead(rest, sep) == Lead(rest, sep);
    LeadStep(first, others, sep);
    Cancel(sep, first + Lead(others, sep), s);
    LeadStep([x] + first, others, sep);
    Regroup(x, first, Lead(others, sep));
  }

  lemma Cancel<T>(x: T, a: seq<T>, b: seq<T>)
    requires [x] + a == [x] + b
    ensures a == b
  {
    assert a == ([x] + a)[1..] && b == ([x] + b)[1..];
  }

  lemma Regroup<T>(x: T, a: seq<T>, b: seq<T>)
    ensures ([x] + a) + b == [x] + (a + b)
  {
  }

  /** The pieces, each with its separator before it, spell the text. */
  lemma {:induction false} LeadSplit<T>(s: seq<T>, sep: T)
    ensures Lead(Split(s, sep), sep) == [sep] + s
    ensures forall p :: p in Split(s, sep) ==> sep !in p
  {
    SplitFree(s, sep);
    if s == [] {
      assert Split(s, sep) == [[]];
      LeadStep<T>([], [], sep);
    } else {
      LeadSplit(s[1..], sep);
      SplitStep(s, sep);
      LeadMore(s[0], s[1..], Split(s[1..], sep), sep);
      hide Split, Lead;
      assert s == [s[0]] + s[1..];
    }
  }
}
