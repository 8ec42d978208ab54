/**
 * The bounded regex subset (backend/app/domain/validation/pattern.py).
 *
 * `Parse` reads a source text as alternatives of atoms, `PatternMatches` says which
 * strings those alternatives denote, and `WithinLimits` lists the size limits in
 * declarative form. `PatternScanner` is the index-advancing scanner of the program,
 * which computes a match-length bound on the fly.
 */
module Pattern {
  import opened Results

  const MAX_PATTERN_LENGTH := 256
  const MAX_ALTERNATIVES := 16
  const MAX_ATOMS_PER_ALTERNATIVE := 64
  const MAX_QUANTIFIED_ATOMS_PER_ALTERNATIVE := 16
  const MAX_REPETITION := 256
  const MAX_BRANCH_MATCH_LENGTH := 1024

  const ESCAPABLE := ".\\^$*+?{}[]|()-"
  const FORBIDDEN_UNESCAPED := "^$*+?{}()]"

  datatype PatternError = PortablePatternInvalid

  /** The characters an atom accepts: any but a line feed, or a union of intervals. */
  datatype Chars = AnyCharacter | Intervals(ranges: seq<(char, char)>)

  predicate Accepts(cs: Chars, c: char) {
    match cs
    case AnyCharacter => c != '\n'
    case Intervals(ranges) => exists i :: 0 <= i < |ranges| && ranges[i].0 <= c <= ranges[i].1
  }

  predicate RangesMeet(l: (char, char), r: (char, char)) { l.0 <= r.1 && r.0 <= l.1 }

  predicate Overlaps(a: Chars, b: Chars) {
    || a.AnyCharacter?
    || b.AnyCharacter?
    || exists i, j :: 0 <= i < |a.ranges| && 0 <= j < |b.ranges| && RangesMeet(a.ranges[i], b.ranges[j])
  }

  datatype Atom = Atom(chars: Chars, lower: nat, upper: nat, quantified: bool)

  type Branch = seq<Atom>

  // ---------------------------------------------------------------- meaning

  predicate AtomMatches(a: Atom, s: string) {
    a.lower <= |s| <= a.upper && forall i :: 0 <= i < |s| ==> Accepts(a.chars, s[i])
  }

  predicate BranchMatches(atoms: Branch, s: string) {
    if |atoms| == 0 then s == ""
    else exists k :: 0 <= k <= |s| && AtomMatches(atoms[0], s[..k]) && BranchMatches(atoms[1..], s[k..])
  }

  predicate PatternMatches(branches: seq<Branch>, s: string) {
    exists i :: 0 <= i < |branches| && BranchMatches(branches[i], s)
  }

  function BranchMax(atoms: Branch): nat {
    if |atoms| == 0 then 0 else BranchMax(atoms[..|atoms| - 1]) + atoms[|atoms| - 1].upper
  }

  function PatternMax(branches: seq<Branch>): (m: nat)
    requires |branches| > 0
    ensures forall i :: 0 <= i < |branches| ==> BranchMax(branches[i]) <= m
    ensures exists i :: 0 <= i < |branches| && BranchMax(branches[i]) == m
  {
    var n := |branches| - 1;
    var last := BranchMax(branches[n]);
    if n == 0 then last
    else
      var m := PatternMax(branches[..n]);
      assert forall i :: 0 <= i < n ==> branches[i] == branches[..n][i];
      if last > m then last
      else
        var i :| 0 <= i < n && BranchMax(branches[..n][i]) == m;
        assert BranchMax(branches[i]) == m;
        m
  }

  // ---------------------------------------------------------------- reading a source text

  datatype Read<+T> = Fail | Got(value: T, next: nat)

  function ReadEscape(s: string, i: nat): (r: Read<char>)
    requires i < |s|
    ensures r.Got? ==> i < r.next <= |s|
  {
    if i + 1 == |s| || s[i + 1] !in ESCAPABLE then Fail else Got(s[i + 1], i + 2)
  }

  /** A character of a class, with whether it was escaped. */
  type ClassItem = (char, bool)

  function ReadClassItems(s: string, i: nat, items: seq<ClassItem>): (r: Read<seq<ClassItem>>)
    requires i <= |s|
    decreases |s| - i
    ensures r.Got? ==> i < r.next <= |s|
  {
    if i == |s| then Fail
    else if s[i] == ']' then Got(items, i + 1)
    else if s[i] == '\\' then
      match ReadEscape(s, i)
      case Fail => Fail
      case Got(c, j) => ReadClassItems(s, j, items + [(c, true)])
    else if s[i] == '[' || (s[i] == '^' && |items| == 0) then Fail
    else ReadClassItems(s, i + 1, items + [(s[i], false)])
  }

  predicate RangeAt(items: seq<ClassItem>, k: nat)
    requires k < |items|
  {
    k + 2 < |items| && items[k + 1] == ('-', false) && items[k].0 != '-'
  }

  function ClassRanges(items: seq<ClassItem>, k: nat): Option<seq<(char, char)>>
    requires k <= |items|
    decreases |items| - k
  {
    if k == |items| then Some([])
    else if RangeAt(items, k) then
      var lo, hi := items[k].0, items[k + 2].0;
      if hi == '-' || lo > hi then None
      else match ClassRanges(items, k + 3) case None => None case Some(rest) => Some([(lo, hi)] + rest)
    else if items[k] == ('-', false) && k != 0 && k != |items| - 1 then None
    else match ClassRanges(items, k + 1) case None => None case Some(rest) => Some([(items[k].0, items[k].0)] + rest)
  }

  function ReadClass(s: string, i: nat): (r: Read<Chars>)
    requires i < |s|
    ensures r.Got? ==> i < r.next <= |s|
  {
    match ReadClassItems(s, i + 1, [])
    case Fail => Fail
    case Got(items, j) =>
      if |items| == 0 then Fail
      else match ClassRanges(items, 0) case None => Fail case Some(ranges) => Got(Intervals(ranges), j)
  }

  function Single(c: char): Chars { Intervals([(c, c)]) }

  function ReadAtom(s: string, i: nat): (r: Read<Chars>)
    requires i < |s|
    ensures r.Got? ==> i < r.next <= |s|
  {
    if s[i] == '.' then Got(AnyCharacter, i + 1)
    else if s[i] == '[' then ReadClass(s, i)
    else if s[i] == '\\' then match ReadEscape(s, i) case Fail => Fail case Got(c, j) => Got(Single(c), j)
    else if s[i] in FORBIDDEN_UNESCAPED then Fail
    else Got(Single(s[i]), i + 1)
  }

  /** The first index at or after `i` holding `c`, or |s|. */
  function FindFrom(s: string, c: char, i: nat): (n: nat)
    requires i <= |s|
    decreases |s| - i
    ensures i <= n <= |s|
    ensures n < |s| ==> s[n] == c
    ensures forall k :: i <= k < n ==> s[k] != c
  {
    if i == |s| || s[i] == c then i else FindFrom(s, c, i + 1)
  }

  function SplitOn(s: string, c: char): (parts: seq<string>)
    ensures |parts| > 0
    decreases |s|
  {
    var n := FindFrom(s, c, 0);
    if n == |s| then [s] else [s[..n]] + SplitOn(s[n + 1..], c)
  }

  predicate IsNumber(s: string) { |s| > 0 && forall i :: 0 <= i < |s| ==> '0' <= s[i] <= '9' }

  function NumberOf(s: string): nat
    requires forall i :: 0 <= i < |s| ==> '0' <= s[i] <= '9'
  {
    if |s| == 0 then 0 else 10 * NumberOf(s[..|s| - 1]) + (s[|s| - 1] as int - '0' as int)
  }

  datatype Repetition = Repetition(lower: nat, upper: nat, quantified: bool)

  function BoundsOf(body: string): Option<Repetition> {
    var parts := SplitOn(body, ',');
    if |parts| == 1 && IsNumber(parts[0]) then Some(Repetition(NumberOf(parts[0]), NumberOf(parts[0]), true))
    else if |parts| == 2 && IsNumber(parts[0]) && IsNumber(parts[1]) then
      Some(Repetition(NumberOf(parts[0]), NumberOf(parts[1]), true))
    else None
  }

  function ReadQuantifier(s: string, i: nat): (r: Read<Repetition>)
    requires i <= |s|
    ensures r.Got? ==> i <= r.next <= |s| && r.value.lower <= r.value.upper
  {
    if i == |s| then Got(Repetition(1, 1, false), i)
    else if s[i] == '?' then Got(Repetition(0, 1, true), i + 1)
    else if s[i] != '{' then Got(Repetition(1, 1, false), i)
    else
      var closing := FindFrom(s, '}', i + 1);
      if closing == |s| then Fail
      else match BoundsOf(s[i + 1..closing])
        case None => Fail
        case Some(rep) => if rep.lower > rep.upper then Fail else Got(rep, closing + 1)
  }

  /** The atoms from `i` up to the next top-level bar or the end. */
  function ReadBranch(s: string, i: nat): (r: Read<Branch>)
    requires i <= |s|
    decreases |s| - i
    ensures r.Got? ==> i <= r.next <= |s| && (r.next < |s| ==> s[r.next] == '|')
  {
    if i == |s| || s[i] == '|' then Got([], i)
    else match ReadAtom(s, i)
      case Fail => Fail
      case Got(chars, j) =>
        match ReadQuantifier(s, j)
        case Fail => Fail
        case Got(rep, k) =>
          match ReadBranch(s, k)
          case Fail => Fail
          case Got(rest, n) => Got([Atom(chars, rep.lower, rep.upper, rep.quantified)] + rest, n)
  }

  function ReadAlternatives(s: string, i: nat): Option<seq<Branch>>
    requires i <= |s|
    decreases |s| - i
  {
    match ReadBranch(s, i)
    case Fail => None
    case Got(branch, j) =>
      if j == |s| then Some([branch])
      else match ReadAlternatives(s, j + 1) case None => None case Some(rest) => Some([branch] + rest)
  }

  /** The alternatives a source text denotes, if it is well formed. */
  function Parse(s: string): Option<seq<Branch>> { ReadAlternatives(s, 0) }

  // ---------------------------------------------------------------- limits

  function QuantifiedCount(atoms: Branch): nat {
    if |atoms| == 0 then 0
    else QuantifiedCount(atoms[..|atoms| - 1]) + if atoms[|atoms| - 1].quantified then 1 else 0
  }

  /** Every limit a branch must meet except not being empty. */
  predicate BranchFits(atoms: Branch) {
    && |atoms| <= MAX_ATOMS_PER_ALTERNATIVE
    && QuantifiedCount(atoms) <= MAX_QUANTIFIED_ATOMS_PER_ALTERNATIVE
    && BranchMax(atoms) <= MAX_BRANCH_MATCH_LENGTH
    && (forall i :: 0 <= i < |atoms| ==> atoms[i].upper <= MAX_REPETITION)
    && NeighboursDisjoint(atoms)
  }

  predicate Clash(a: Atom, b: Atom) { a.quantified && b.quantified && Overlaps(a.chars, b.chars) }

  /** No two adjacent quantified atoms accept a common character. */
  predicate NeighboursDisjoint(atoms: Branch) {
    var n := |atoms| - 1;
    n < 1 || (NeighboursDisjoint(atoms[..n]) && !Clash(atoms[n - 1], atoms[n]))
  }

  predicate WithinLimits(branches: seq<Branch>) {
    && 0 < |branches| <= MAX_ALTERNATIVES
    && forall i :: 0 <= i < |branches| ==> branches[i] != [] && BranchFits(branches[i])
  }

  lemma {:induction false} FitsPrefix(atoms: Branch, rest: Branch)
    ensures BranchFits(atoms + rest) ==> BranchFits(atoms)
    decreases |rest|
  {
    if |rest| == 0 {
      assert atoms + rest == atoms;
    } else {
      var all, n := atoms + rest, |rest| - 1;
      assert all[..|all| - 1] == atoms + rest[..n];
      if BranchFits(all) {
        assert forall i :: 0 <= i < |all| - 1 ==> all[..|all| - 1][i] == all[i];
        FitsPrefix(atoms, rest[..n]);
      }
    }
  }

  // ---------------------------------------------------------------- the scanner

  class PatternScanner {
    const source: string
    var index: nat

    constructor (source: string)
      ensures this.source == source && index == 0
    {
      this.source := source;
      index := 0;
    }

    /** scan: the largest branch maximum, for exactly the well-formed sources within the limits. */
    method Scan() returns (r: Result<nat, PatternError>)
      requires index == 0
      modifies this`index
      ensures r.Ok? <==> AcceptedSource(source)
      ensures r.Ok? ==> r.value == PatternMax(Parse(source).value)
    {
      var branchMaxima: seq<nat> := [];
      ghost var done: seq<Branch> := [];
      PrefixedNothing(Parse(source));
      while true
        invariant index <= |source|
        invariant ScanProgress(source, index, done, branchMaxima)
        decreases |source| - index
      {
        ghost var start := index;
        var maximum := ScanBranch();
        ScanStep(source, start, done, branchMaxima, maximum);
        if maximum.Err? { return Err(PortablePatternInvalid); }
        branchMaxima := branchMaxima + [maximum.value];
        done := done + [ReadBranch(source, start).value];
        if index == |source| { break; }
        index := index + 1;
        if |branchMaxima| >= MAX_ALTERNATIVES { return Err(PortablePatternInvalid); }
      }
      var best := Maximum(branchMaxima);
      MaximumOf(branchMaxima, done, best);
      return Ok(best);
    }

    method ScanBranch() returns (r: Result<nat, PatternError>)
      requires index <= |source|
      modifies this`index
      ensures old(index) <= index <= |source|
      ensures var b := ReadBranch(source, old(index));
        && (r.Ok? <==> b.Got? && b.value != [] && BranchFits(b.value))
        && (r.Ok? ==> index == b.next && r.value == BranchMax(b.value))
    {
      hide ReadAtom, ReadQuantifier, Overlaps;
      var atomCount, quantifiedCount, maximumLength := 0, 0, 0;
      var previousQuantified := false;
      var previousCharacters: Option<Chars> := None;
      ghost var atoms: Branch := [];
      ghost var all := ReadBranch(source, index);
      assert all.Got? ==> [] + all.value == all.value;
      while index < |source| && source[index] != '|'
        invariant old(index) <= index <= |source|
        invariant all == PrefixedRead(atoms, ReadBranch(source, index))
        invariant BranchFits(atoms)
        invariant atomCount == |atoms| && quantifiedCount == QuantifiedCount(atoms) && maximumLength == BranchMax(atoms)
        invariant |atoms| == 0 ==> !previousQuantified && previousCharacters == None
        invariant |atoms| > 0 ==>
          previousQuantified == atoms[|atoms| - 1].quantified && previousCharacters == Some(atoms[|atoms| - 1].chars)
        decreases |source| - index
      {
        BranchStep(source, index, atoms);
        var characters := ScanAtom();
        if characters.Err? { return Err(PortablePatternInvalid); }
        ghost var afterAtom := index;
        atomCount := atomCount + 1;
        if atomCount > MAX_ATOMS_PER_ALTERNATIVE { return Err(PortablePatternInvalid); }
        var repetition := ScanQuantifier();
        ghost var rep := ReadQuantifier(source, afterAtom);
        if rep.Got? { FitsStep(atoms, AtomOf(characters.value, rep.value)); }
        if repetition.Err? { return Err(PortablePatternInvalid); }
        var (maximumRepetition, quantified) := repetition.value;
        if quantified {
          quantifiedCount := quantifiedCount + 1;
          if quantifiedCount > MAX_QUANTIFIED_ATOMS_PER_ALTERNATIVE { return Err(PortablePatternInvalid); }
          if previousQuantified && previousCharacters.Some? && Overlaps(previousCharacters.value, characters.value) {
            return Err(PortablePatternInvalid);
          }
        }
        maximumLength := maximumLength + maximumRepetition;
        if maximumLength > MAX_BRANCH_MATCH_LENGTH { return Err(PortablePatternInvalid); }
        previousQuantified := quantified;
        previousCharacters := Some(characters.value);
        atoms := atoms + [AtomOf(characters.value, rep.value)];
      }
      assert all == Got(atoms, index) by { assert atoms + [] == atoms; }
      if atomCount == 0 { return Err(PortablePatternInvalid); }
      return Ok(maximumLength);
    }

    method ScanAtom() returns (r: Result<Chars, PatternError>)
      requires index < |source|
      modifies this`index
      ensures old(index) <= index <= |source|
      ensures match ReadAtom(source, old(index))
        case Fail => r.Err?
        case Got(chars, next) => r == Ok(chars) && index == next
    {
      var c := source[index];
      if c == '.' {
        index := index + 1;
        return Ok(AnyCharacter);
      }
      if c == '[' {
        r := ScanCharacterClass();
        return;
      }
      if c == '\\' {
        var literal := ScanEscape();
        if literal.Err? { return Err(PortablePatternInvalid); }
        return Ok(Single(literal.value));
      }
      if c in FORBIDDEN_UNESCAPED { return Err(PortablePatternInvalid); }
      index := index + 1;
      return Ok(Single(c));
    }

    method ScanEscape() returns (r: Result<char, PatternError>)
      requires index < |source|
      modifies this`index
      ensures old(index) <= index <= |source|
      ensures match ReadEscape(source, old(index))
        case Fail => r.Err?
        case Got(c, next) => r == Ok(c) && index == next
    {
      index := index + 1;
      if index == |source| { return Err(PortablePatternInvalid); }
      var escaped := source[index];
      if escaped !in ESCAPABLE { return Err(PortablePatternInvalid); }
      index := index + 1;
      return Ok(escaped);
    }

    method ScanCharacterClass() returns (r: Result<Chars, PatternError>)
      requires index < |source|
      modifies this`index
      ensures old(index) <= index <= |source|
      ensures match ReadClass(source, old(index))
        case Fail => r.Err?
        case Got(chars, next) => r == Ok(chars) && index == next
    {
      index := index + 1;
      ghost var read := ReadClassItems(source, index, []);
      var items: seq<ClassItem> := [];
      while index < |source| && source[index] != ']'
        invariant old(index) < index <= |source|
        invariant ReadClassItems(source, index, items) == read
        decreases |source| - index
      {
        var c := source[index];
        if c == '\\' {
          var escaped := ScanEscape();
          if escaped.Err? { return Err(PortablePatternInvalid); }
          items := items + [(escaped.value, true)];
          continue;
        }
        if c == '[' || (c == '^' && |items| == 0) { return Err(PortablePatternInvalid); }
        items := items + [(c, false)];
        index := index + 1;
      }
      if index == |source| { return Err(PortablePatternInvalid); }
      index := index + 1;
      if |items| == 0 { return Err(PortablePatternInvalid); }

      var intervals: seq<(char, char)> := [];
      var k := 0;
      ghost var expected := ClassRanges(items, 0);
      assert expected.Some? ==> [] + expected.value == expected.value;
      while k < |items|
        invariant 0 <= k <= |items|
        invariant expected == match ClassRanges(items, k) case None => None case Some(rest) => Some(intervals + rest)
      {
        var (c, escaped) := items[k];
        ghost var rest := ClassRanges(items, k);
        if k + 2 < |items| && items[k + 1] == ('-', false) && c != '-' {
          var end := items[k + 2].0;
          if end == '-' || c > end { return Err(PortablePatternInvalid); }
          assert rest.Some? ==> intervals + rest.value == (intervals + [(c, end)]) + ClassRanges(items, k + 3).value;
          intervals := intervals + [(c, end)];
          k := k + 3;
          continue;
        }
        if c == '-' && !escaped && k != 0 && k != |items| - 1 { return Err(PortablePatternInvalid); }
        assert rest.Some? ==> intervals + rest.value == (intervals + [(c, c)]) + ClassRanges(items, k + 1).value;
        intervals := intervals + [(c, c)];
        k := k + 1;
      }
      assert intervals + [] == intervals;
      return Ok(Intervals(intervals));
    }

    method ScanQuantifier() returns (r: Result<(nat, bool), PatternError>)
      requires index <= |source|
      modifies this`index
      ensures old(index) <= index <= |source|
      ensures match ReadQuantifier(source, old(index))
        case Fail => r.Err?
        case Got(rep, next) =>
          if rep.quantified && rep.upper > MAX_REPETITION then r.Err?
          else r == Ok((rep.upper, rep.quantified)) && index == next && rep.upper <= MAX_REPETITION
    {
      if index == |source| { return Ok((1, false)); }
      if source[index] == '?' {
        index := index + 1;
        return Ok((1, true));
      }
      if source[index] != '{' { return Ok((1, false)); }
      var closing := FindFrom(source, '}', index + 1);
      if closing == |source| { return Err(PortablePatternInvalid); }
      var bounds := BoundsOf(source[index + 1..closing]);
      if bounds.None? { return Err(PortablePatternInvalid); }
      if bounds.value.lower > bounds.value.upper { return Err(PortablePatternInvalid); }
      if bounds.value.upper > MAX_REPETITION { return Err(PortablePatternInvalid); }
      index := closing + 1;
      return Ok((bounds.value.upper, true));
    }
  }

  ghost function Prefixed(done: seq<Branch>, rest: Option<seq<Branch>>): Option<seq<Branch>> {
    match rest case None => None case Some(bs) => Some(done + bs)
  }

  ghost function PrefixedRead(done: Branch, rest: Read<Branch>): Read<Branch> {
    match rest case Fail => Fail case Got(atoms, n) => Got(done + atoms, n)
  }

  method Maximum(xs: seq<nat>) returns (best: nat)
    requires |xs| > 0
    ensures forall k :: 0 <= k < |xs| ==> xs[k] <= best
    ensures exists k :: 0 <= k < |xs| && xs[k] == best
  {
    best := xs[0];
    for i := 1 to |xs|
      invariant forall k :: 0 <= k < i ==> xs[k] <= best
      invariant exists k :: 0 <= k < i && xs[k] == best
    {
      if xs[i] > best { best := xs[i]; }
    }
  }

  function AtomOf(chars: Chars, rep: Repetition): Atom { Atom(chars, rep.lower, rep.upper, rep.quantified) }

  /** One atom and its quantifier read: what the branch read so far tells about the whole branch. */
  lemma {:induction false} BranchStep(s: string, i: nat, atoms: Branch)
    requires i < |s| && s[i] != '|'
    ensures var all := PrefixedRead(atoms, ReadBranch(s, i));
      && (ReadAtom(s, i).Fail? ==> all.Fail?)
      && (all.Got? && |atoms| >= MAX_ATOMS_PER_ALTERNATIVE ==> !BranchFits(all.value))
      && (ReadAtom(s, i).Got? ==>
            var rep := ReadQuantifier(s, ReadAtom(s, i).next);
            && (rep.Fail? ==> all.Fail?)
            && (rep.Got? ==>
                  var longer := atoms + [AtomOf(ReadAtom(s, i).value, rep.value)];
                  && all == PrefixedRead(longer, ReadBranch(s, rep.next))
                  && (all.Got? && !BranchFits(longer) ==> !BranchFits(all.value))))
  {
    var atom := ReadAtom(s, i);
    if atom.Got? {
      var rep := ReadQuantifier(s, atom.next);
      if rep.Got? {
        var a := AtomOf(atom.value, rep.value);
        var rest := ReadBranch(s, rep.next);
        if rest.Got? {
          assert ReadBranch(s, i) == Got([a] + rest.value, rest.next);
          assert atoms + ([a] + rest.value) == (atoms + [a]) + rest.value;
          FitsPrefix(atoms + [a], rest.value);
        }
      }
    }
  }

  /** The running counters decide whether one more atom still fits. */
  lemma {:induction false} FitsStep(atoms: Branch, a: Atom)
    requires BranchFits(atoms)
    ensures QuantifiedCount(atoms + [a]) == QuantifiedCount(atoms) + if a.quantified then 1 else 0
    ensures BranchMax(atoms + [a]) == BranchMax(atoms) + a.upper
    ensures BranchFits(atoms + [a]) <==>
      && |atoms| < MAX_ATOMS_PER_ALTERNATIVE
      && QuantifiedCount(atoms + [a]) <= MAX_QUANTIFIED_ATOMS_PER_ALTERNATIVE
      && BranchMax(atoms + [a]) <= MAX_BRANCH_MATCH_LENGTH
      && a.upper <= MAX_REPETITION
      && !(|atoms| > 0 && Clash(atoms[|atoms| - 1], a))
  {
    hide Overlaps;
    var longer := atoms + [a];
    assert longer[..|atoms|] == atoms;
    assert longer[|atoms|] == a;
    assert |atoms| > 0 ==> longer[|atoms| - 1] == atoms[|atoms| - 1];
  }

  ghost predicate AllFit(done: seq<Branch>) {
    forall i :: 0 <= i < |done| ==> done[i] != [] && BranchFits(done[i])
  }

  ghost predicate MaximaOf(maxima: seq<nat>, done: seq<Branch>) {
    |maxima| == |done| && forall i :: 0 <= i < |done| ==> maxima[i] == BranchMax(done[i])
  }

  lemma {:induction false} PrefixedNothing(all: Option<seq<Branch>>)
    ensures Prefixed([], all) == all
  {
    if all.Some? { assert [] + all.value == all.value; }
  }

  predicate AcceptedSource(s: string) { Parse(s).Some? && WithinLimits(Parse(s).value) }

  /** The alternatives before `i` are `done`, they fit, and `maxima` are their maximum lengths. */
  ghost predicate ScanProgress(s: string, i: nat, done: seq<Branch>, maxima: seq<nat>) {
    && i <= |s|
    && |done| < MAX_ALTERNATIVES
    && MaximaOf(maxima, done)
    && AllFit(done)
    && Parse(s) == Prefixed(done, ReadAlternatives(s, i))
  }

  /** One alternative read: what it tells about the whole source. */
  lemma {:induction false} ScanStep(s: string, i: nat, done: seq<Branch>, maxima: seq<nat>,
      m: Result<nat, PatternError>)
    requires ScanProgress(s, i, done, maxima)
    requires var b := ReadBranch(s, i);
      && (m.Ok? <==> b.Got? && b.value != [] && BranchFits(b.value))
      && (m.Ok? ==> m.value == BranchMax(b.value))
    ensures m.Err? ==> !AcceptedSource(s)
    ensures m.Ok? ==>
      var b := ReadBranch(s, i);
      var done', maxima' := done + [b.value], maxima + [m.value];
      && MaximaOf(maxima', done') && AllFit(done')
      && (b.next == |s| ==> Parse(s) == Some(done') && AcceptedSource(s))
      && (b.next < |s| && |done'| < MAX_ALTERNATIVES ==> ScanProgress(s, b.next + 1, done', maxima'))
      && (b.next < |s| && |done'| >= MAX_ALTERNATIVES ==> !AcceptedSource(s))
  {
    hide ReadBranch, BranchFits, BranchMax;
    var branch := ReadBranch(s, i);
    var all := Parse(s);
    if branch.Got? && all.Some? { assert all.value[|done|] == branch.value; }
    if branch.Got? && branch.next < |s| {
      var rest := ReadAlternatives(s, branch.next + 1);
      NonEmptyAlternatives(s, branch.next + 1);
      if rest.Some? { assert done + ([branch.value] + rest.value) == (done + [branch.value]) + rest.value; }
    }
  }

  lemma {:induction false} NonEmptyAlternatives(s: string, i: nat)
    requires i <= |s|
    ensures ReadAlternatives(s, i).Some? ==> |ReadAlternatives(s, i).value| > 0
  {
  }

  lemma {:induction false} MaximumOf(maxima: seq<nat>, done: seq<Branch>, best: nat)
    requires |done| > 0 && MaximaOf(maxima, done)
    requires forall k :: 0 <= k < |maxima| ==> maxima[k] <= best
    requires exists k :: 0 <= k < |maxima| && maxima[k] == best
    ensures best == PatternMax(done)
  {
    var k :| 0 <= k < |done| && BranchMax(done[k]) == PatternMax(done);
    var j :| 0 <= j < |maxima| && maxima[j] == best;
    assert maxima[k] <= best && BranchMax(done[j]) == best;
  }

  // ---------------------------------------------------------------- compiled patterns

  datatype PortablePattern = PortablePattern(source: string, maxMatchLength: nat, branches: seq<Branch>)

  /** compile_portable_pattern */
  method CompilePattern(source: string) returns (r: Result<PortablePattern, PatternError>)
    ensures r == Compile(source)
  {
    if source == "" || |source| > MAX_PATTERN_LENGTH { return Err(PortablePatternInvalid); }
    var scanner := new PatternScanner(source);
    var maximum := scanner.Scan();
    if maximum.Err? { return Err(PortablePatternInvalid); }
    return Ok(PortablePattern(source, maximum.value, Parse(source).value));
  }

  function Compile(source: string): Result<PortablePattern, PatternError> {
    if source == "" || |source| > MAX_PATTERN_LENGTH then Err(PortablePatternInvalid)
    else match Parse(source)
      case None => Err(PortablePatternInvalid)
      case Some(branches) =>
        if WithinLimits(branches) then Ok(PortablePattern(source, PatternMax(branches), branches))
        else Err(PortablePatternInvalid)
  }

  /** PortablePattern.fullmatch: the length guard, then the host engine. */
  predicate FullMatch(p: PortablePattern, value: string) {
    |value| <= p.maxMatchLength && PatternMatches(p.branches, value)
  }

  // ---------------------------------------------------------------- the bound

  lemma {:induction false} BranchMaxCons(atoms: Branch)
    requires |atoms| > 0
    ensures BranchMax(atoms) == atoms[0].upper + BranchMax(atoms[1..])
  {
    var n := |atoms| - 1;
    if n > 0 {
      BranchMaxCons(atoms[..n]);
      assert atoms[..n][1..] == atoms[1..][..n - 1];
    }
  }

  lemma {:induction false} BranchBoundSound(atoms: Branch, s: string)
    requires BranchMatches(atoms, s)
    ensures |s| <= BranchMax(atoms)
  {
    if |atoms| > 0 {
      var k :| 0 <= k <= |s| && AtomMatches(atoms[0], s[..k]) && BranchMatches(atoms[1..], s[k..]);
      BranchBoundSound(atoms[1..], s[k..]);
      BranchMaxCons(atoms);
    }
  }

  predicate Inhabited(a: Atom) {
    a.lower <= a.upper && (a.chars.Intervals? ==> |a.chars.ranges| > 0 && a.chars.ranges[0].0 <= a.chars.ranges[0].1)
  }

  predicate AllInhabited(atoms: Branch) { forall i :: 0 <= i < |atoms| ==> Inhabited(atoms[i]) }

  lemma {:induction false} BranchBoundTight(atoms: Branch) returns (s: string)
    requires AllInhabited(atoms)
    ensures BranchMatches(atoms, s) && |s| == BranchMax(atoms)
  {
    if |atoms| == 0 {
      s := "";
    } else {
      var rest := BranchBoundTight(atoms[1..]);
      var a := atoms[0];
      var c := if a.chars.AnyCharacter? then 'a' else a.chars.ranges[0].0;
      assert Accepts(a.chars, c);
      var head := seq(a.upper, _ => c);
      s := head + rest;
      assert s[..a.upper] == head && s[a.upper..] == rest;
      assert AtomMatches(a, head);
      BranchMaxCons(atoms);
    }
  }

  lemma {:induction false} ClassRangesInhabited(items: seq<ClassItem>, k: nat)
    requires k <= |items|
    ensures var r := ClassRanges(items, k);
      r.Some? ==> (k < |items| ==> |r.value| > 0) && forall i :: 0 <= i < |r.value| ==> r.value[i].0 <= r.value[i].1
    decreases |items| - k
  {
    if k < |items| {
      if RangeAt(items, k) { ClassRangesInhabited(items, k + 3); } else { ClassRangesInhabited(items, k + 1); }
    }
  }

  lemma {:induction false} AtomInhabited(s: string, i: nat)
    requires i < |s| && ReadAtom(s, i).Got?
    ensures var cs := ReadAtom(s, i).value; cs.Intervals? ==> |cs.ranges| > 0 && cs.ranges[0].0 <= cs.ranges[0].1
  {
    if s[i] == '[' { ClassRangesInhabited(ReadClassItems(s, i + 1, []).value, 0); }
  }

  lemma {:induction false} BranchAtomsInhabited(s: string, i: nat)
    requires i <= |s|
    ensures ReadBranch(s, i).Got? ==> AllInhabited(ReadBranch(s, i).value)
    decreases |s| - i
  {
    if i < |s| && s[i] != '|' && ReadBranch(s, i).Got? {
      var atom := ReadAtom(s, i);
      AtomInhabited(s, i);
      var rep := ReadQuantifier(s, atom.next);
      BranchAtomsInhabited(s, rep.next);
      var rest := ReadBranch(s, rep.next).value;
      var first := Atom(atom.value, rep.value.lower, rep.value.upper, rep.value.quantified);
      assert ReadBranch(s, i).value == [first] + rest;
      assert Inhabited(first);
    }
  }

  lemma {:induction false} AlternativesInhabited(s: string, i: nat)
    requires i <= |s|
    ensures var r := ReadAlternatives(s, i); r.Some? ==> forall b :: 0 <= b < |r.value| ==> AllInhabited(r.value[b])
    decreases |s| - i
  {
    BranchAtomsInhabited(s, i);
    var b := ReadBranch(s, i);
    if b.Got? && b.next < |s| {
      AlternativesInhabited(s, b.next + 1);
      var rest := ReadAlternatives(s, b.next + 1);
      if rest.Some? { assert ReadAlternatives(s, i) == Some([b.value] + rest.value); }
    }
  }

  /**
   * For every accepted source the bound is sound (no matched string is longer), tight
   * (some matched string attains it) and at most 1024.
   */
  lemma {:induction false} MatchLengthBound(source: string) returns (longest: string)
    requires Compile(source).Ok?
    ensures var p := Compile(source).value;
      && p.maxMatchLength <= MAX_BRANCH_MATCH_LENGTH
      && (forall s | PatternMatches(p.branches, s) :: |s| <= p.maxMatchLength)
      && PatternMatches(p.branches, longest) && |longest| == p.maxMatchLength
  {
    var p := Compile(source).value;
    forall s | PatternMatches(p.branches, s) ensures |s| <= p.maxMatchLength {
      var i :| 0 <= i < |p.branches| && BranchMatches(p.branches[i], s);
      BranchBoundSound(p.branches[i], s);
    }
    var b :| 0 <= b < |p.branches| && BranchMax(p.branches[b]) == p.maxMatchLength;
    AlternativesInhabited(source, 0);
    longest := BranchBoundTight(p.branches[b]);
  }

  /** The length guard of `fullmatch` never changes the answer. */
  lemma {:induction false} LengthGuardIsRedundant(source: string, value: string)
    requires Compile(source).Ok?
    ensures FullMatch(Compile(source).value, value) <==> PatternMatches(Compile(source).value.branches, value)
  {
    var longest := MatchLengthBound(source);
  }

  predicate OnlyLineFeed(a: Chars) {
    a.Intervals? && forall i :: 0 <= i < |a.ranges| ==> a.ranges[i] == ('\n', '\n')
  }

  predicate WellOrdered(a: Chars) {
    a.Intervals? ==> forall i :: 0 <= i < |a.ranges| ==> a.ranges[i].0 <= a.ranges[i].1
  }

  /**
   * `overlaps` holds exactly when some character is accepted by both sides, or when a
   * dot meets a class of line feeds only (the dot is treated as accepting everything).
   */
  lemma {:induction false} OverlapsIsCommonCharacter(a: Chars, b: Chars)
    requires WellOrdered(a) && WellOrdered(b)
    ensures Overlaps(a, b) <==>
      || (exists c :: Accepts(a, c) && Accepts(b, c))
      || (a.AnyCharacter? && OnlyLineFeed(b))
      || (b.AnyCharacter? && OnlyLineFeed(a))
  {
    if c :| Accepts(a, c) && Accepts(b, c) {
      if a.Intervals? && b.Intervals? {
        var i :| 0 <= i < |a.ranges| && a.ranges[i].0 <= c <= a.ranges[i].1;
        var j :| 0 <= j < |b.ranges| && b.ranges[j].0 <= c <= b.ranges[j].1;
        assert RangesMeet(a.ranges[i], b.ranges[j]);
      }
    }
    if Overlaps(a, b) {
      if a.Intervals? && b.Intervals? {
        var i, j :| 0 <= i < |a.ranges| && 0 <= j < |b.ranges| && RangesMeet(a.ranges[i], b.ranges[j]);
        var c := if a.ranges[i].0 < b.ranges[j].0 then b.ranges[j].0 else a.ranges[i].0;
        assert Accepts(a, c) && Accepts(b, c);
      } else if a.AnyCharacter? && b.AnyCharacter? {
        assert Accepts(a, 'a') && Accepts(b, 'a');
      } else if a.AnyCharacter? {
        DotMeets(b);
      } else {
        DotMeets(a);
      }
    }
  }

  lemma {:induction false} DotMeets(b: Chars)
    requires WellOrdered(b) && b.Intervals?
    ensures OnlyLineFeed(b) || exists c :: Accepts(AnyCharacter, c) && Accepts(b, c)
  {
    if !OnlyLineFeed(b) {
      var i :| 0 <= i < |b.ranges| && b.ranges[i] != ('\n', '\n');
      var c := if b.ranges[i].0 != '\n' then b.ranges[i].0 else b.ranges[i].1;
      assert Accepts(b, c) && Accepts(AnyCharacter, c);
    }
  }

  /** An optional dot before an optional class of one line feed. */
  const DOT_THEN_LINE_FEED := ".?[\n]?"

  function DotThenLineFeed(): Branch { [Atom(AnyCharacter, 0, 1, true), Atom(Single('\n'), 0, 1, true)] }

  /** The class part is read as one quantified atom up to the end. */
  lemma {:induction false} LineFeedClassReads()
    ensures ReadBranch(DOT_THEN_LINE_FEED, 2) == Got([Atom(Single('\n'), 0, 1, true)], 6)
  {
    var s := DOT_THEN_LINE_FEED;
    var items: seq<ClassItem> := [('\n', false)];
    assert [] + items == items;
    assert ReadClassItems(s, 4, items) == Got(items, 5);
    assert ReadClassItems(s, 3, []) == Got(items, 5);
    var none := ClassRanges(items, 1);
    var ranges: seq<(char, char)> := [('\n', '\n')];
    assert none == Some([]) && ranges + none.value == ranges;
    assert !RangeAt(items, 0);
    assert ClassRanges(items, 0) == Some(ranges);
    assert ReadClass(s, 2) == Got(Single('\n'), 5);
    assert ReadQuantifier(s, 5) == Got(Repetition(0, 1, true), 6);
    assert ReadBranch(s, 6) == Got([], 6);
    var one: Branch := [Atom(Single('\n'), 0, 1, true)];
    assert one + [] == one;
  }

  /**
   * The corner is real: this source is within every other limit, but refused although no
   * character is accepted by both of its atoms.
   */
  lemma {:induction false} DotRefusesLineFeedClass()
    ensures Parse(DOT_THEN_LINE_FEED) == Some([DotThenLineFeed()])
    ensures Compile(DOT_THEN_LINE_FEED) == Err(PortablePatternInvalid)
    ensures QuantifiedCount(DotThenLineFeed()) == 2 && BranchMax(DotThenLineFeed()) == 2
    ensures !NeighboursDisjoint(DotThenLineFeed())
    ensures !exists c :: Accepts(AnyCharacter, c) && Accepts(Single('\n'), c)
  {
    var s, b := DOT_THEN_LINE_FEED, DotThenLineFeed();
    LineFeedClassReads();
    assert ReadAtom(s, 0) == Got(AnyCharacter, 1) && ReadQuantifier(s, 1) == Got(Repetition(0, 1, true), 2);
    assert [b[0]] + [b[1]] == b;
    assert ReadBranch(s, 0) == Got(b, 6);
    assert b[..1][..0] == [] && b[..1] == [b[0]];
    assert Parse(s) == Some([b]);
    assert !BranchFits([b][0]);
  }
}
