/**
  Backtracking regular expressions as in section 22.2.2 of ECMA-262: `Ends` lists the places where a
  match that starts at `i` may end, in the order in which the matcher tries them, so the first one
  is the match. Alternatives are tried left to right, repetition is greedy, and an iteration that
  consumes nothing is not repeated. A literal text (under the `i` flag) and a repeated character
  class are single nodes: the class takes the longest run first and gives back one by one.
 */
module Regex {
  import opened Wrappers
  import opened Text

  datatype Re =
    | Empty
    | Boundary
    | Word(text: string)
    | Chars(member: char -> bool, min: nat, max: Option<nat>)
    | Cat(first: Re, second: Re)
    | Alt(left: Re, right: Re)
    | Star(body: Re)

  predicate AtBoundary(t: string, i: nat)
    requires i <= |t|
  {
    (0 < i && IsWordChar(t[i - 1])) != (i < |t| && IsWordChar(t[i]))
  }

  predicate WordAt(word: string, t: string, i: nat) {
    i + |word| <= |t| && forall k :: 0 <= k < |word| ==> LowerChar(t[i + k]) == LowerChar(word[k])
  }

  /** How many characters of the class, at most `max`, stand from `i` on. */
  function RunLength(member: char -> bool, max: nat, t: string, i: nat): (k: nat)
    requires i <= |t|
    ensures k <= max && i + k <= |t|
  {
    if max == 0 || i == |t| || !member(t[i]) then 0 else 1 + RunLength(member, max - 1, t, i + 1)
  }

  /** `hi`, `hi - 1`, ..., `lo` */
  function Down(hi: nat, lo: nat): (s: seq<nat>)
    requires lo <= hi
    ensures |s| == hi - lo + 1 && s[0] == hi
    ensures forall k :: 0 <= k < |s| ==> s[k] == hi - k
  {
    if hi == lo then [hi] else [hi] + Down(hi - 1, lo)
  }

  ghost predicate Within(ends: seq<nat>, lo: nat, hi: nat) {
    forall k :: 0 <= k < |ends| ==> lo <= ends[k] <= hi
  }

  /** The longest run of the class first, then one character less at a time. */
  function CharEnds(member: char -> bool, min: nat, max: nat, t: string, i: nat): (ends: seq<nat>)
    requires i <= |t|
    ensures Within(ends, i, |t|)
  {
    var run := RunLength(member, max, t, i);
    if run < min then [] else Down(i + run, i + min)
  }

  function Ends(r: Re, t: string, i: nat): (ends: seq<nat>)
    requires i <= |t|
    ensures Within(ends, i, |t|)
    decreases r, |t| - i, 0, 0
  {
    match r
    case Empty => [i]
    case Boundary => if AtBoundary(t, i) then [i] else []
    case Word(text) => if WordAt(text, t, i) then [i + |text|] else []
    case Chars(member, min, max) =>
      CharEnds(member, min, max.GetOr(|t|), t, i)
    case Cat(first, second) => EndsFrom(second, t, Ends(first, t, i), i)
    case Alt(left, right) => Ends(left, t, i) + Ends(right, t, i)
    case Star(body) =>
      var moved := Beyond(Ends(body, t, i), i);
      (if moved == [] then [] else EndsFrom(r, t, moved, i + 1)) + [i]
  }

  function EndsFrom(r: Re, t: string, starts: seq<nat>, lo: nat): (ends: seq<nat>)
    requires lo <= |t| && Within(starts, lo, |t|)
    ensures Within(ends, lo, |t|)
    decreases r, |t| - lo, 1, |starts|
  {
    if starts == [] then []
    else Ends(r, t, starts[0]) + EndsFrom(r, t, starts[1..], lo)
  }

  /** The places past `i`, in order. */
  function Beyond(ends: seq<nat>, i: nat): (past: seq<nat>)
    ensures forall k :: 0 <= k < |past| ==> past[k] in ends && i < past[k]
    ensures past == [] || past[0] in ends
  {
    if ends == [] then [] else (if ends[0] > i then [ends[0]] else []) + Beyond(ends[1..], i)
  }

  function Opt(r: Re): Re { Alt(r, Empty) }

  // ---------- First matches ----------

  /** Where the match that starts at `i` ends, if there is one. */
  function First(r: Re, t: string, i: nat): (e: Option<nat>)
    requires i <= |t|
    ensures e.Some? ==> i <= e.value <= |t|
  {
    var ends := Ends(r, t, i);
    if ends == [] then None else Some(ends[0])
  }

  lemma EndsFromHead(r: Re, t: string, starts: seq<nat>, lo: nat)
    requires lo <= |t| && Within(starts, lo, |t|) && starts != []
    requires First(r, t, starts[0]).Some?
    ensures EndsFrom(r, t, starts, lo) != [] && EndsFrom(r, t, starts, lo)[0] == First(r, t, starts[0]).value
  {
  }

  /** No backtracking into `a` when `b` matches right after the first match of `a`. */
  lemma FirstOfCat(a: Re, b: Re, t: string, i: nat)
    requires i <= |t| && First(a, t, i).Some? && First(b, t, First(a, t, i).value).Some?
    ensures First(Cat(a, b), t, i) == First(b, t, First(a, t, i).value)
  {
    EndsFromHead(b, t, Ends(a, t, i), i);
  }

  lemma FirstOfCatNone(a: Re, b: Re, t: string, i: nat)
    requires i <= |t| && First(a, t, i).None?
    ensures First(Cat(a, b), t, i).None?
  {
    assert EndsFrom(b, t, [], i) == [];
  }

  lemma FirstOfOpt(r: Re, t: string, i: nat)
    requires i <= |t|
    ensures First(Opt(r), t, i) == if First(r, t, i).Some? then First(r, t, i) else Some(i)
  {
    assert Ends(Empty, t, i) == [i];
  }

  /** A star goes round again as long as its body matches something. */
  lemma FirstOfStar(body: Re, t: string, i: nat)
    requires i <= |t|
    requires First(body, t, i).Some? ==> i < First(body, t, i).value
    ensures First(Star(body), t, i)
         == if First(body, t, i).Some? then First(Star(body), t, First(body, t, i).value) else Some(i)
  {
    var ends := Ends(body, t, i);
    if ends != [] {
      var moved := Beyond(ends, i);
      assert moved[0] == ends[0];
      StarMatches(body, t, ends[0]);
      EndsFromHead(Star(body), t, moved, i + 1);
    }
  }

  lemma StarStep(body: Re, t: string, i: nat, j: nat, e: nat)
    requires i < j <= |t| && First(body, t, i) == Some(j) && First(Star(body), t, j) == Some(e)
    ensures First(Star(body), t, i) == Some(e)
  {
    FirstOfStar(body, t, i);
  }

  lemma StarMatches(body: Re, t: string, i: nat)
    requires i <= |t|
    ensures First(Star(body), t, i).Some?
  {
  }

  /** Every character from `i` up to `e` is in the class. */
  ghost predicate Run(t: string, member: char -> bool, i: nat, e: nat) {
    i <= e <= |t| && forall k :: i <= k < e ==> member(t[k])
  }

  lemma FirstOfChars(member: char -> bool, min: nat, max: Option<nat>, t: string, i: nat)
    requires i <= |t|
    ensures First(Chars(member, min, max), t, i)
         == var run := RunLength(member, max.GetOr(|t|), t, i); if run < min then None else Some(i + run)
  {
  }

  lemma {:induction false} RunLengthIsRun(member: char -> bool, max: nat, t: string, i: nat)
    requires i <= |t|
    ensures Run(t, member, i, i + RunLength(member, max, t, i))
    ensures RunLength(member, max, t, i) < max && i + RunLength(member, max, t, i) < |t| ==>
              !member(t[i + RunLength(member, max, t, i)])
  {
    if max != 0 && i != |t| && member(t[i]) { RunLengthIsRun(member, max - 1, t, i + 1); }
  }

  lemma {:induction false} LongRun(member: char -> bool, max: nat, t: string, i: nat)
    requires i + max <= |t| && Run(t, member, i, i + max)
    ensures RunLength(member, max, t, i) == max
  {
    if max != 0 { LongRun(member, max - 1, t, i + 1); }
  }

  lemma WordStartsAlike(word: string, t: string, i: nat)
    requires word != []
    ensures WordAt(word, t, i) ==> i < |t| && LowerChar(t[i]) == LowerChar(word[0])
  {
    if WordAt(word, t, i) { assert LowerChar(t[i + 0]) == LowerChar(word[0]); }
  }

  // ---------- Searching ----------

  /** The first capture: `group` right after one of the ends of the lead-in, tried in order. */
  function CaptureAt(group: Re, t: string, mids: seq<nat>): (c: Option<(nat, nat)>)
    requires Within(mids, 0, |t|)
    ensures c.Some? ==> c.value.0 in mids && Some(c.value.1) == First(group, t, c.value.0)
    ensures c.None? ==> forall k :: 0 <= k < |mids| ==> First(group, t, mids[k]).None?
  {
    if mids == [] then None
    else if First(group, t, mids[0]).Some? then Some((mids[0], First(group, t, mids[0]).value))
    else CaptureAt(group, t, mids[1..])
  }

  /** What a pattern captures when it is matched exactly at `p`. */
  function CaptureHere(leadIn: Re, group: Re, t: string, p: nat): (c: Option<(nat, nat)>)
    requires p <= |t|
    ensures c.Some? ==> p <= c.value.0 <= c.value.1 <= |t|
  {
    CaptureAt(group, t, Ends(leadIn, t, p))
  }

  /** A capture at each position of a text, and past its last character. */
  type Captures = nat -> Option<(nat, nat)>

  function CapturesOf(leadIn: Re, group: Re, t: string): Captures {
    (p: nat) => if p <= |t| then CaptureHere(leadIn, group, t, p) else None
  }

  /** The first capture from position `i` to `n`. */
  function Leftmost(here: Captures, n: nat, i: nat): Option<(nat, nat)>
    requires i <= n
    decreases n - i
  {
    if here(i).Some? then here(i)
    else if i < n then Leftmost(here, n, i + 1)
    else None
  }

  /** A search that finds something found it at some position; one that does not, nowhere. */
  lemma {:induction false} LeftmostSomewhere(here: Captures, n: nat, i: nat) returns (p: nat)
    requires i <= n
    ensures i <= p <= n && Leftmost(here, n, i) == here(p)
    ensures forall q: nat :: i <= q < p ==> here(q).None?
    ensures here(p).None? ==> p == n
    decreases n - i
  {
    if here(i).Some? || i == n {
      p := i;
    } else {
      p := LeftmostSomewhere(here, n, i + 1);
    }
  }

  lemma LeftmostInText(leadIn: Re, group: Re, t: string)
    ensures var span := Leftmost(CapturesOf(leadIn, group, t), |t|, 0);
            span.Some? ==> span.value.0 <= span.value.1 <= |t|
  {
    var p := LeftmostSomewhere(CapturesOf(leadIn, group, t), |t|, 0);
  }

  /** `text.match(/leadIn(group)/)`: the span of the group in the leftmost match. */
  function Search(leadIn: Re, group: Re, t: string): (span: Option<(nat, nat)>)
    ensures span.Some? ==> span.value.0 <= span.value.1 <= |t|
  {
    LeftmostInText(leadIn, group, t);
    Leftmost(CapturesOf(leadIn, group, t), |t|, 0)
  }

  /** `new RegExp(r).test(text)` */
  predicate Test(r: Re, t: string) {
    exists i: nat :: i <= |t| && First(r, t, i).Some?
  }

  lemma {:induction false} CaptureConcat(group: Re, t: string, a: seq<nat>, b: seq<nat>)
    requires Within(a, 0, |t|) && Within(b, 0, |t|)
    ensures Within(a + b, 0, |t|)
    ensures CaptureAt(group, t, a + b)
         == if CaptureAt(group, t, a).Some? then CaptureAt(group, t, a) else CaptureAt(group, t, b)
  {
    if a == [] {
      assert a + b == b;
    } else {
      assert (a + b)[1..] == a[1..] + b;
      CaptureConcat(group, t, a[1..], b);
    }
  }

  /** Two groups with the same first match everywhere capture the same. */
  lemma {:induction false} SameGroup(g: Re, g': Re, t: string, mids: seq<nat>)
    requires Within(mids, 0, |t|)
    requires forall i: nat :: i <= |t| ==> First(g, t, i) == First(g', t, i)
    ensures CaptureAt(g, t, mids) == CaptureAt(g', t, mids)
  {
    if mids != [] { SameGroup(g, g', t, mids[1..]); }
  }

  lemma {:induction false} SameLeftmost(a: Captures, b: Captures, n: nat, i: nat)
    requires i <= n && forall p: nat :: p <= n ==> a(p) == b(p)
    ensures Leftmost(a, n, i) == Leftmost(b, n, i)
    decreases n - i
  {
    if i < n { SameLeftmost(a, b, n, i + 1); }
  }

  /** Two patterns that capture the same at every position are found at the same place. */
  lemma SameSearch(l: Re, l': Re, g: Re, g': Re, t: string)
    requires forall p: nat :: p <= |t| ==> CaptureHere(l, g, t, p) == CaptureHere(l', g', t, p)
    ensures Search(l, g, t) == Search(l', g', t)
  {
    var a, b := CapturesOf(l, g, t), CapturesOf(l', g', t);
    forall p: nat | p <= |t| ensures a(p) == b(p) {
      assert CaptureHere(l, g, t, p) == CaptureHere(l', g', t, p);
    }
    SameLeftmost(a, b, |t|, 0);
  }

  lemma {:induction false} LeftmostAt(here: Captures, n: nat, i: nat, p: nat)
    requires i <= p <= n && here(p).Some?
    requires forall q: nat :: i <= q < p ==> here(q).None?
    ensures Leftmost(here, n, i) == here(p)
    decreases p - i
  {
    if i < p { LeftmostAt(here, n, i + 1, p); }
  }

  /** A pattern is found where it first captures. */
  lemma FoundHere(leadIn: Re, group: Re, t: string, p: nat)
    requires p <= |t| && CaptureHere(leadIn, group, t, p).Some?
    requires forall q: nat :: q < p ==> CaptureHere(leadIn, group, t, q).None?
    ensures Search(leadIn, group, t) == CaptureHere(leadIn, group, t, p)
  {
    LeftmostAt(CapturesOf(leadIn, group, t), |t|, 0, p);
  }

  /** A search reports what is captured at some position, or nothing if there is none. */
  lemma FoundSomewhere(leadIn: Re, group: Re, t: string) returns (p: nat)
    ensures p <= |t| && Search(leadIn, group, t) == CaptureHere(leadIn, group, t, p)
    ensures forall q: nat :: q < p ==> CaptureHere(leadIn, group, t, q).None?
    ensures CaptureHere(leadIn, group, t, p).None? ==> p == |t|
  {
    var here := CapturesOf(leadIn, group, t);
    p := LeftmostSomewhere(here, |t|, 0);
    forall q: nat | q < p ensures CaptureHere(leadIn, group, t, q).None? { assert here(q).None?; }
  }

  lemma CaptureOfFirsts(leadIn: Re, group: Re, t: string, p: nat, m: nat, e: nat)
    requires p <= |t| && First(leadIn, t, p) == Some(m) && First(group, t, m) == Some(e)
    ensures CaptureHere(leadIn, group, t, p) == Some((m, e))
  {
  }

  lemma CaptureAfterCat(a: Re, b: Re, group: Re, t: string, p: nat)
    requires p <= |t|
    ensures CaptureHere(Cat(a, b), group, t, p) == CaptureAt(group, t, EndsFrom(b, t, Ends(a, t, p), p))
  {
  }

  /** The span that a search reports is what the group matches there. */
  lemma FoundSpan(leadIn: Re, group: Re, t: string)
    ensures Search(leadIn, group, t).Some? ==>
              var (m, e) := Search(leadIn, group, t).value; First(group, t, m) == Some(e)
  {
    var p := FoundSomewhere(leadIn, group, t);
    if Search(leadIn, group, t).Some? { CaptureIsMatch(leadIn, group, t, p); }
  }

  lemma CaptureIsMatch(leadIn: Re, group: Re, t: string, p: nat)
    requires p <= |t| && CaptureHere(leadIn, group, t, p).Some?
    ensures var (m, e) := CaptureHere(leadIn, group, t, p).value; First(group, t, m) == Some(e)
  {
  }

  // ---------- Which ends there are ----------

  lemma {:induction false} EndsFromHas(r: Re, t: string, starts: seq<nat>, lo: nat, s: nat, m: nat)
    requires lo <= |t| && Within(starts, lo, |t|) && s in starts && s <= |t| && m in Ends(r, t, s)
    ensures m in EndsFrom(r, t, starts, lo)
  {
    EndsFromStep(r, t, starts, lo);
    if s != starts[0] { EndsFromHas(r, t, starts[1..], lo, s, m); }
  }

  lemma {:induction false} EndsFromMember(r: Re, t: string, starts: seq<nat>, lo: nat, m: nat) returns (s: nat)
    requires lo <= |t| && Within(starts, lo, |t|) && m in EndsFrom(r, t, starts, lo)
    ensures s in starts && s <= |t| && m in Ends(r, t, s)
  {
    EndsFromStep(r, t, starts, lo);
    if m in Ends(r, t, starts[0]) {
      s := starts[0];
    } else {
      s := EndsFromMember(r, t, starts[1..], lo, m);
    }
  }

  /** A sequence ends where its second part ends that starts where its first part ends. */
  lemma CatEnds(a: Re, b: Re, t: string, i: nat, m: nat)
    requires i <= |t|
    ensures m in Ends(Cat(a, b), t, i) <==> exists s: nat :: s <= |t| && s in Ends(a, t, i) && m in Ends(b, t, s)
  {
    if m in Ends(Cat(a, b), t, i) {
      var s := CatMember(a, b, t, i, m);
    }
    if s: nat :| s <= |t| && s in Ends(a, t, i) && m in Ends(b, t, s) {
      CatHas(a, b, t, i, s, m);
    }
  }

  lemma CatMember(a: Re, b: Re, t: string, i: nat, m: nat) returns (s: nat)
    requires i <= |t| && m in Ends(Cat(a, b), t, i)
    ensures s <= |t| && s in Ends(a, t, i) && m in Ends(b, t, s)
  {
    s := EndsFromMember(b, t, Ends(a, t, i), i, m);
  }

  lemma CatHas(a: Re, b: Re, t: string, i: nat, s: nat, m: nat)
    requires i <= |t| && s in Ends(a, t, i) && s <= |t| && m in Ends(b, t, s)
    ensures m in Ends(Cat(a, b), t, i)
  {
    EndsFromHas(b, t, Ends(a, t, i), i, s, m);
  }

  lemma WordEnds(word: string, t: string, i: nat, e: nat)
    requires i <= |t|
    ensures e in Ends(Word(word), t, i) <==> WordAt(word, t, i) && e == i + |word|
  {
  }

  /** A class repeated at will ends after every run of it. */
  lemma RepeatEnds(member: char -> bool, t: string, i: nat, m: nat)
    requires i <= |t|
    ensures m in Ends(Chars(member, 0, None), t, i) <==> Run(t, member, i, m)
  {
    var n := RunLength(member, |t|, t, i);
    RunLengthIsRun(member, |t|, t, i);
    if Run(t, member, i, m) {
      RunIsWithin(member, |t|, t, i, m);
      assert Down(i + n, i)[i + n - m] == m;
    }
  }

  lemma {:induction false} RunIsWithin(member: char -> bool, max: nat, t: string, i: nat, m: nat)
    requires Run(t, member, i, m) && m - i <= max
    ensures m <= i + RunLength(member, max, t, i)
    decreases m - i
  {
    if i < m { RunIsWithin(member, max - 1, t, i + 1, m); }
  }

  lemma EndsFromOne(r: Re, t: string, x: nat, lo: nat)
    requires lo <= x <= |t|
    ensures EndsFrom(r, t, [x], lo) == Ends(r, t, x)
  {
    assert [x][1..] == [];
    assert EndsFrom(r, t, [], lo) == [];
  }

  lemma {:induction false} EndsFromConcat(r: Re, t: string, a: seq<nat>, b: seq<nat>, lo: nat)
    requires lo <= |t| && Within(a, lo, |t|) && Within(b, lo, |t|) && Within(a + b, lo, |t|)
    ensures EndsFrom(r, t, a + b, lo) == EndsFrom(r, t, a, lo) + EndsFrom(r, t, b, lo)
  {
    if a == [] {
      assert a + b == b;
      assert EndsFrom(r, t, a, lo) == [];
    } else {
      var rest := a[1..];
      assert (a + b)[1..] == rest + b;
      EndsFromConcat(r, t, rest, b, lo);
      EndsFromStep(r, t, a, lo);
      EndsFromStep(r, t, a + b, lo);
      ConcatAssociates(Ends(r, t, a[0]), EndsFrom(r, t, rest, lo), EndsFrom(r, t, b, lo));
    }
  }

  lemma ConcatAssociates(x: seq<nat>, y: seq<nat>, z: seq<nat>)
    ensures x + (y + z) == x + y + z
  {
  }

  lemma EndsFromStep(r: Re, t: string, starts: seq<nat>, lo: nat)
    requires lo <= |t| && Within(starts, lo, |t|) && starts != []
    ensures EndsFrom(r, t, starts, lo) == Ends(r, t, starts[0]) + EndsFrom(r, t, starts[1..], lo)
  {
  }
}
