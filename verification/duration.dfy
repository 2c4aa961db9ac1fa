/** The duration codec of ytSearch.ts: `isoDurationToSeconds` and
    `parseISODuration`. Both run the unanchored regular expression
    `PT(?:(\d+)H)?(?:(\d+)M)?(?:(\d+)S)?` and read its three groups with
    `Number(group ?? 0)`. The expression is modelled as the deterministic scan
    it amounts to: find the first "PT", then for H, M and S in turn take the
    maximal run of digits and consume it only if that letter follows. */
module Duration {
  import opened Wrappers
  import opened Decimal

  /** The three numeric groups of the match; an absent group counts as 0. */
  datatype Clock = Clock(hours: nat, minutes: nat, seconds: nat)

  /** The value the source substitutes for a missing duration. */
  const DefaultDuration: string := "PT0S"

  function TotalSeconds(c: Clock): nat {
    c.hours * 3600 + c.minutes * 60 + c.seconds
  }

  predicate PTAt(s: string, i: int) {
    0 <= i && i + 1 < |s| && s[i] == 'P' && s[i + 1] == 'T'
  }

  /** The first position at or after `from` where "PT" occurs. */
  function FindPT(s: string, from: nat): (r: Option<nat>)
    requires from <= |s|
    ensures r.Some? ==> from <= r.value && PTAt(s, r.value)
    ensures forall i :: from <= i < |s| && PTAt(s, i) ==> r.Some? && r.value <= i
    decreases |s| - from
  {
    if from + 1 >= |s| then None
    else if s[from] == 'P' && s[from + 1] == 'T' then Some(from)
    else FindPT(s, from + 1)
  }

  /** The number read by one group, and the position after it. */
  datatype Read = Read(value: nat, next: nat)

  /** The optional group `(?:(\d+)X)?` that starts at i, with X = `letter`,
      once its digits have been read up to j: more digits extend the run;
      otherwise the group participates only if the run is non-empty and the
      letter follows it. An absent group reads 0 and consumes nothing. */
  function Scan(s: string, i: nat, j: nat, letter: char): (r: Read)
    requires i <= j <= |s| && AllDigits(s[i..j])
    ensures i <= r.next <= |s|
    decreases |s| - j
  {
    if j < |s| && IsDigit(s[j]) then
      assert s[i..j + 1] == s[i..j] + [s[j]];
      Scan(s, i, j + 1, letter)
    else if i < j < |s| && s[j] == letter then
      Read(Value(s[i..j]), j + 1)
    else
      Read(0, i)
  }

  /** One optional group at position i. */
  function Designator(s: string, i: nat, letter: char): (r: Read)
    requires i <= |s|
    ensures i <= r.next <= |s|
  {
    Scan(s, i, i, letter)
  }

  /** The groups of the first match, or all zeros when there is none. */
  function Components(s: string): Clock {
    match FindPT(s, 0)
    case None => Clock(0, 0, 0)
    case Some(p) => Groups(s, p + 2)
  }

  /** The three optional groups, read in order from position i: each starts
      where the previous one stopped. */
  function Groups(s: string, i: nat): Clock
    requires i <= |s|
  {
    var h := Designator(s, i, 'H');
    var m := Designator(s, h.next, 'M');
    var sec := Designator(s, m.next, 'S');
    Clock(h.value, m.value, sec.value)
  }

  /** `isoDurationToSeconds`. */
  function Seconds(s: string): nat {
    TotalSeconds(Components(s))
  }

  /** `String(n).padStart(2, "0")`: pads on the left with zeros up to two
      characters, never truncates. */
  function PadTwo(str: string): (r: string)
    ensures |r| == if |str| >= 2 then |str| else 2
    ensures r[|r| - |str|..] == str
    ensures forall k :: 0 <= k < |r| - |str| ==> r[k] == '0'
  {
    if |str| >= 2 then str
    else if |str| == 1 then "0" + str
    else "00"
  }

  /** `h:MM:SS` when there are hours, otherwise `m:SS`. */
  function Label(c: Clock): string {
    if c.hours > 0 then
      ToString(c.hours) + ":" + PadTwo(ToString(c.minutes)) + ":" + PadTwo(ToString(c.seconds))
    else
      ToString(c.minutes) + ":" + PadTwo(ToString(c.seconds))
  }

  /** `parseISODuration`. */
  function DurationLabel(s: string): string {
    Label(Components(s))
  }

  /* ---------------- Encoding: the partner of the scanner ---------------- */

  /** One designator as YouTube writes it: the number and its letter, left
      out when the number is zero. */
  function Part(n: nat, letter: char): string {
    if n == 0 then "" else ToString(n) + [letter]
  }

  /** The time part of an ISO 8601 duration (section 4.4.3.2 of ISO 8601:2004)
      in the form the video details carry: zero components left out, and
      "PT0S" for the zero duration. */
  function Encode(c: Clock): string {
    if c == Clock(0, 0, 0) then DefaultDuration
    else "PT" + Parts(c)
  }

  /** The designators of a non-zero duration, hours first. */
  function Parts(c: Clock): string {
    Part(c.hours, 'H') + Part(c.minutes, 'M') + Part(c.seconds, 'S')
  }

  /** The group of `letter` at i does not participate: the maximal digit run
      at i (ending at k) is empty, or is not closed by the letter. */
  ghost predicate FollowsAt(s: string, i: nat, letter: char) {
    exists k :: i <= k <= |s| && AllDigits(s[i..k]) && (k == |s| || !IsDigit(s[k]))
      && !(i < k < |s| && s[k] == letter)
  }

  /** The scanner, once it has read digits up to j, reads the maximal run
      from i to k: the group participates exactly when the run is non-empty
      and the letter closes it. */
  lemma {:induction false} ScanSpec(s: string, i: nat, j: nat, k: nat, letter: char)
    requires i <= j <= k <= |s|
    requires AllDigits(s[i..k]) && (k == |s| || !IsDigit(s[k]))
    ensures AllDigits(s[i..j])
    ensures Scan(s, i, j, letter)
         == if i < k < |s| && s[k] == letter then Read(Value(s[i..k]), k + 1) else Read(0, i)
    decreases k - j
  {
    assert s[i..j] == s[i..k][..j - i];
    if j < k {
      DigitAt(s[i..k], j - i);
      ScanSpec(s, i, j + 1, k, letter);
    }
  }

  /** One optional group, whatever follows position i: with k the end of the
      maximal digit run at i, the group reads that run and its letter when the
      run is non-empty and the letter closes it, and is absent otherwise (an
      empty run, a run reaching the end of the input, or another character
      after it). */
  lemma DesignatorSpec(s: string, i: nat, k: nat, letter: char)
    requires i <= k <= |s| && AllDigits(s[i..k]) && (k == |s| || !IsDigit(s[k]))
    ensures Designator(s, i, letter)
         == if i < k < |s| && s[k] == letter then Read(Value(s[i..k]), k + 1) else Read(0, i)
  {
    ScanSpec(s, i, i, k, letter);
  }

  /** Every position starts a maximal digit run. */
  lemma {:induction false} MaximalRun(s: string, i: nat) returns (k: nat)
    requires i <= |s|
    ensures i <= k <= |s| && AllDigits(s[i..k]) && (k == |s| || !IsDigit(s[k]))
    decreases |s| - i
  {
    if i < |s| && IsDigit(s[i]) {
      k := MaximalRun(s, i + 1);
      assert s[i..k] == [s[i]] + s[i + 1..k];
    } else {
      k := i;
    }
  }

  /** A digit run followed by its letter is read as that group. */
  lemma DesignatorHit(s: string, i: nat, k: nat, letter: char)
    requires i < k < |s| && AllDigits(s[i..k]) && s[k] == letter && !IsDigit(letter)
    ensures Designator(s, i, letter) == Read(Value(s[i..k]), k + 1)
  {
    DesignatorSpec(s, i, k, letter);
  }

  /** A group is absent, consuming nothing and reading 0, exactly when its
      letter does not close a non-empty digit run at i. */
  lemma DesignatorMiss(s: string, i: nat, letter: char)
    requires i <= |s|
    ensures FollowsAt(s, i, letter) <==> Designator(s, i, letter) == Read(0, i)
  {
    var k := MaximalRun(s, i);
    DesignatorSpec(s, i, k, letter);
    if FollowsAt(s, i, letter) {
      var k' :| i <= k' <= |s| && AllDigits(s[i..k']) && (k' == |s| || !IsDigit(s[k']))
        && !(i < k' < |s| && s[k'] == letter);
      MaximalRunUnique(s, i, k, k');
    }
  }

  /** The maximal digit run at a position is unique. */
  lemma MaximalRunUnique(s: string, i: nat, k: nat, k': nat)
    requires i <= k <= |s| && AllDigits(s[i..k]) && (k == |s| || !IsDigit(s[k]))
    requires i <= k' <= |s| && AllDigits(s[i..k']) && (k' == |s| || !IsDigit(s[k']))
    ensures k == k'
  {
    if k < k' {
      DigitAt(s[i..k'], k - i);
      assert false;
    } else if k' < k {
      DigitAt(s[i..k], k' - i);
      assert false;
    }
  }

  /** An encoded non-zero designator is read back as its number. */
  lemma PartHit(s: string, i: nat, n: nat, letter: char)
    requires n > 0 && !IsDigit(letter)
    requires i + |Part(n, letter)| <= |s| && s[i..i + |Part(n, letter)|] == Part(n, letter)
    ensures Designator(s, i, letter) == Read(n, i + |Part(n, letter)|)
  {
    var t := ToString(n);
    assert s[i..i + |t|] == Part(n, letter)[..|t|] == t;
    assert s[i + |t|] == Part(n, letter)[|t|];
    DesignatorHit(s, i, i + |t|, letter);
    ValueOfToString(n);
  }

  /** An encoded non-zero designator is not taken for a different letter. */
  lemma PartFollows(s: string, i: nat, n: nat, letter: char, other: char)
    requires n > 0 && !IsDigit(letter) && letter != other
    requires i + |Part(n, letter)| <= |s| && s[i..i + |Part(n, letter)|] == Part(n, letter)
    ensures FollowsAt(s, i, other)
  {
    var t := ToString(n);
    var j := i + |t|;
    assert s[i..j] == s[i..i + |Part(n, letter)|][..|t|];
    assert s[i..j] == Part(n, letter)[..|t|] == t;
    assert s[j] == Part(n, letter)[|t|];
  }

  /** The match of an encoding after a "PT"-free prefix starts right after it. */
  lemma FirstPTAfter(p: string, e: string)
    requires forall i :: !PTAt(p, i)
    requires |e| >= 2 && e[0] == 'P' && e[1] == 'T'
    ensures FindPT(p + e, 0) == Some(|p|)
  {
    var s := p + e;
    assert PTAt(s, |p|);
    forall i | 0 <= i < |p|
      ensures !PTAt(s, i)
    {
      if i + 1 < |p| {
        assert !PTAt(p, i);
      } else {
        assert s[i + 1] == e[0];
      }
    }
  }

  /** What is left after reading a known prefix. */
  lemma SuffixAfter(s: string, q: nat, a: string, rest: string)
    requires q <= |s| && s[q..] == a + rest
    ensures q + |a| <= |s| && s[q + |a|..] == rest
  {
    assert s[q + |a|..] == s[q..][|a|..];
  }

  /** The hours group of an encoding's designators. */
  lemma HoursOfParts(s: string, q: nat, c: Clock)
    requires c != Clock(0, 0, 0)
    requires q <= |s|
    requires s[q..] == Part(c.hours, 'H') + Part(c.minutes, 'M') + Part(c.seconds, 'S')
    ensures Designator(s, q, 'H') == Read(c.hours, q + |Part(c.hours, 'H')|)
  {
    var a, b, d := Part(c.hours, 'H'), Part(c.minutes, 'M'), Part(c.seconds, 'S');
    if c.hours > 0 {
      assert s[q..q + |a|] == s[q..][..|a|];
      PartHit(s, q, c.hours, 'H');
    } else if c.minutes > 0 {
      assert s[q..q + |b|] == s[q..][..|b|];
      PartFollows(s, q, c.minutes, 'M', 'H');
      DesignatorMiss(s, q, 'H');
    } else {
      assert s[q..q + |d|] == s[q..][..|d|];
      PartFollows(s, q, c.seconds, 'S', 'H');
      DesignatorMiss(s, q, 'H');
    }
  }

  /** The minutes group, read after the hours group. */
  lemma MinutesOfParts(s: string, q: nat, c: Clock)
    requires q <= |s|
    requires s[q..] == Part(c.minutes, 'M') + Part(c.seconds, 'S')
    ensures Designator(s, q, 'M') == Read(c.minutes, q + |Part(c.minutes, 'M')|)
  {
    var b, d := Part(c.minutes, 'M'), Part(c.seconds, 'S');
    if c.minutes > 0 {
      assert s[q..q + |b|] == s[q..][..|b|];
      PartHit(s, q, c.minutes, 'M');
    } else {
      if c.seconds > 0 {
        assert s[q..q + |d|] == s[q..][..|d|];
        PartFollows(s, q, c.seconds, 'S', 'M');
      }
      DesignatorMiss(s, q, 'M');
    }
  }

  /** The seconds group, read last. */
  lemma SecondsOfParts(s: string, q: nat, c: Clock)
    requires q <= |s|
    requires s[q..] == Part(c.seconds, 'S')
    ensures Designator(s, q, 'S').value == c.seconds
  {
    if c.seconds > 0 {
      assert s[q..q + |Part(c.seconds, 'S')|] == s[q..];
      PartHit(s, q, c.seconds, 'S');
    } else {
      DesignatorMiss(s, q, 'S');
    }
  }

  /** The groups of the designators that follow "PT" in an encoding. */
  lemma GroupsOfParts(s: string, q: nat, c: Clock)
    requires c != Clock(0, 0, 0)
    requires q <= |s|
    requires s[q..] == Part(c.hours, 'H') + Part(c.minutes, 'M') + Part(c.seconds, 'S')
    ensures Groups(s, q) == c
  {
    var m := q + |Part(c.hours, 'H')|;
    HoursOfParts(s, q, c);
    SuffixAfter(s, q, Part(c.hours, 'H'), Part(c.minutes, 'M') + Part(c.seconds, 'S'));
    var r := m + |Part(c.minutes, 'M')|;
    MinutesOfParts(s, m, c);
    SuffixAfter(s, m, Part(c.minutes, 'M'), Part(c.seconds, 'S'));
    SecondsOfParts(s, r, c);
    assert Designator(s, q, 'H').next == m;
    assert Designator(s, m, 'M').next == r;
  }

  /** "PT0S" after a "PT"-free prefix reads as zero. */
  lemma ComponentsOfZero(p: string)
    requires forall i :: !PTAt(p, i)
    ensures Components(p + DefaultDuration) == Clock(0, 0, 0)
  {
    var s := p + DefaultDuration;
    var q := |p| + 2;
    FirstPTAfter(p, DefaultDuration);
    assert |s| == q + 2 && s[q] == '0' && s[q + 1] == 'S';
    assert s[q..q + 1] == "0";
    assert AllDigits(s[q..q + 1]);
    DesignatorMiss(s, q, 'H');
    DesignatorMiss(s, q, 'M');
    DesignatorHit(s, q, q + 1, 'S');
    assert Groups(s, q) == Clock(0, 0, 0);
  }

  /** A non-zero encoding after a "PT"-free prefix reads as its components. */
  lemma ComponentsOfNonZero(p: string, c: Clock)
    requires c != Clock(0, 0, 0)
    requires forall i :: !PTAt(p, i)
    ensures Components(p + Encode(c)) == c
  {
    var s := p + Encode(c);
    FirstPTAfter(p, Encode(c));
    SuffixAfter(s, 0, p, Encode(c));
    SuffixAfter(s, |p|, "PT", Parts(c));
    ComponentsOfPartsAt(s, |p|, c);
  }

  /** Designators of `c` right after the first "PT" read as `c`. */
  lemma ComponentsOfPartsAt(s: string, p: nat, c: Clock)
    requires c != Clock(0, 0, 0)
    requires FindPT(s, 0) == Some(p)
    requires s[p + 2..] == Parts(c)
    ensures Components(s) == c
  {
    GroupsOfParts(s, p + 2, c);
  }

  /** Decoding an encoded duration gives back its components, also when it is
      preceded by text that contains no "PT". */
  lemma ComponentsOfEncode(p: string, c: Clock)
    requires forall i :: !PTAt(p, i)
    ensures Components(p + Encode(c)) == c
  {
    if c == Clock(0, 0, 0) {
      ComponentsOfZero(p);
    } else {
      ComponentsOfNonZero(p, c);
    }
  }

  /** An input without "PT" (such as "P1DT2H", which also has a day part)
      decodes to zero. */
  lemma NoMatchIsZero(s: string)
    requires forall i :: !PTAt(s, i)
    ensures Components(s) == Clock(0, 0, 0)
    ensures Seconds(s) == 0 && DurationLabel(s) == "0:00"
  {
    assert Components(s) == Clock(0, 0, 0);
    assert ToString(0) == "0";
    assert Label(Clock(0, 0, 0)) == "0:00";
  }

  /** A "PT" after which no group participates reads as zero: the match
      exists, but all three groups are undefined and count as 0. */
  lemma NoGroupsIsZero(s: string, p: nat)
    requires FindPT(s, 0) == Some(p)
    requires FollowsAt(s, p + 2, 'H') && FollowsAt(s, p + 2, 'M') && FollowsAt(s, p + 2, 'S')
    ensures Components(s) == Clock(0, 0, 0)
    ensures Seconds(s) == 0 && DurationLabel(s) == "0:00"
  {
    DesignatorMiss(s, p + 2, 'H');
    DesignatorMiss(s, p + 2, 'M');
    DesignatorMiss(s, p + 2, 'S');
    assert Groups(s, p + 2) == Clock(0, 0, 0);
    assert ToString(0) == "0";
    assert Label(Clock(0, 0, 0)) == "0:00";
  }

  /** A digit run without its designator letter, as in "PT15", is no group. */
  lemma UnclosedRunIsZero()
    ensures Seconds("PT15") == 0 && DurationLabel("PT15") == "0:00"
  {
    var s := "PT15";
    assert PTAt(s, 0);
    assert AllDigits(s[2..4]);
    assert FollowsAt(s, 2, 'H') && FollowsAt(s, 2, 'M') && FollowsAt(s, 2, 'S');
    NoGroupsIsZero(s, 0);
  }

  /** The seconds of an encoded duration are 3600 h + 60 m + s. */
  lemma SecondsOfEncode(c: Clock)
    ensures Seconds(Encode(c)) == 3600 * c.hours + 60 * c.minutes + c.seconds
  {
    ComponentsOfEncode("", c);
    assert "" + Encode(c) == Encode(c);
  }

  /* ---------------- Reading a label back ---------------- */

  function ColonIndex(l: string): (i: nat)
    requires ':' in l
    ensures i < |l| && l[i] == ':' && ':' !in l[..i]
  {
    if l[0] == ':' then 0
    else
      var i := 1 + ColonIndex(l[1..]);
      assert l[..i] == [l[0]] + l[1..][..i - 1];
      i
  }

  /** The pieces of a label between colons. */
  function Fields(l: string): (r: seq<string>)
    ensures |r| > 0
    decreases |l|
  {
    if ':' !in l then [l]
    else
      var i := ColonIndex(l);
      [l[..i]] + Fields(l[i + 1..])
  }

  lemma FieldsCons(a: string, b: string)
    requires ':' !in a
    ensures Fields(a + ":" + b) == [a] + Fields(b)
  {
    var l := a + ":" + b;
    assert l[|a|] == ':';
    var i := ColonIndex(l);
    assert l[..i] == a;
    assert l[i + 1..] == b;
  }

  lemma DigitsHaveNoColon(x: string)
    requires AllDigits(x)
    ensures ':' !in x
  {
  }

  predicate IsNumber(f: string) {
    |f| > 0 && AllDigits(f)
  }

  /** The components shown by an `h:MM:SS` or `m:SS` label. */
  function ParseLabel(l: string): Option<Clock> {
    var f := Fields(l);
    if |f| == 3 && IsNumber(f[0]) && IsNumber(f[1]) && IsNumber(f[2]) then
      Some(Clock(Value(f[0]), Value(f[1]), Value(f[2])))
    else if |f| == 2 && IsNumber(f[0]) && IsNumber(f[1]) then
      Some(Clock(0, Value(f[0]), Value(f[1])))
    else None
  }

  /** Padding adds at most one leading zero, which does not change the number. */
  lemma {:induction false} ValueOfPadded(n: nat)
    ensures IsNumber(PadTwo(ToString(n))) && Value(PadTwo(ToString(n))) == n
  {
    ValueOfToString(n);
    var t := ToString(n);
    if |t| == 1 {
      LeadingZero(t);
    }
  }

  /** Two colon-free pieces joined by a colon split back into themselves. */
  lemma FieldsOfTwo(x: string, y: string)
    requires ':' !in x && ':' !in y
    ensures Fields(x + ":" + y) == [x, y]
  {
    FieldsCons(x, y);
  }

  lemma JoinAssoc(x: string, y: string, z: string)
    ensures x + ":" + y + ":" + z == x + ":" + (y + ":" + z)
  {
  }

  lemma FieldsOfThree(x: string, y: string, z: string)
    requires ':' !in x && ':' !in y && ':' !in z
    ensures Fields(x + ":" + y + ":" + z) == [x, y, z]
  {
    JoinAssoc(x, y, z);
    FieldsCons(x, y + ":" + z);
    FieldsOfTwo(y, z);
  }

  /** Three numbers joined by colons parse as hours, minutes and seconds. */
  lemma ParseThree(x: string, y: string, z: string)
    requires IsNumber(x) && IsNumber(y) && IsNumber(z)
    ensures ParseLabel(x + ":" + y + ":" + z) == Some(Clock(Value(x), Value(y), Value(z)))
  {
    DigitsHaveNoColon(x);
    DigitsHaveNoColon(y);
    DigitsHaveNoColon(z);
    FieldsOfThree(x, y, z);
  }

  /** Two numbers joined by a colon parse as minutes and seconds. */
  lemma ParseTwo(y: string, z: string)
    requires IsNumber(y) && IsNumber(z)
    ensures ParseLabel(y + ":" + z) == Some(Clock(0, Value(y), Value(z)))
  {
    DigitsHaveNoColon(y);
    DigitsHaveNoColon(z);
    FieldsOfTwo(y, z);
  }

  /** The label shows the components exactly: hours only when positive,
      minutes and seconds neither truncated nor normalised (75 minutes stay
      75), leading zeros of the input gone. */
  lemma LabelRoundTrip(c: Clock)
    ensures ParseLabel(Label(c)) == Some(c)
  {
    if c.hours > 0 {
      LabelWithHours(c);
    } else {
      LabelWithoutHours(c);
    }
  }

  lemma LabelWithHours(c: Clock)
    requires c.hours > 0
    ensures ParseLabel(Label(c)) == Some(c)
  {
    var x, y, z := ToString(c.hours), PadTwo(ToString(c.minutes)), PadTwo(ToString(c.seconds));
    assert Label(c) == x + ":" + y + ":" + z;
    ValueOfToString(c.hours);
    ValueOfPadded(c.minutes);
    ValueOfPadded(c.seconds);
    ParseThree(x, y, z);
  }

  lemma LabelWithoutHours(c: Clock)
    requires c.hours == 0
    ensures ParseLabel(Label(c)) == Some(c)
  {
    var y, z := ToString(c.minutes), PadTwo(ToString(c.seconds));
    assert Label(c) == y + ":" + z;
    ValueOfToString(c.minutes);
    ValueOfPadded(c.seconds);
    ParseTwo(y, z);
  }

  /** The label's shape: three fields when there are hours and two otherwise;
      the first is the number as `String` writes it, the others are padded
      to at least two digits. */
  lemma LabelShape(c: Clock)
    ensures |Fields(Label(c))| == if c.hours > 0 then 3 else 2
    ensures Fields(Label(c))[0] == ToString(if c.hours > 0 then c.hours else c.minutes)
    ensures forall k :: 0 < k < |Fields(Label(c))| ==> |Fields(Label(c))[k]| >= 2
    ensures Fields(Label(c))[|Fields(Label(c))| - 1] == PadTwo(ToString(c.seconds))
    ensures c.hours > 0 ==> Fields(Label(c))[1] == PadTwo(ToString(c.minutes))
  {
    LabelFields(c);
  }

  /** The fields of a label are its numbers, hours first when present. */
  lemma LabelFields(c: Clock)
    ensures Fields(Label(c)) == if c.hours > 0
      then [ToString(c.hours), PadTwo(ToString(c.minutes)), PadTwo(ToString(c.seconds))]
      else [ToString(c.minutes), PadTwo(ToString(c.seconds))]
  {
    ValueOfPadded(c.seconds);
    DigitsHaveNoColon(PadTwo(ToString(c.seconds)));
    if c.hours > 0 {
      LabelFieldsWithHours(c);
    } else {
      var y, z := ToString(c.minutes), PadTwo(ToString(c.seconds));
      assert Label(c) == y + ":" + z;
      DigitsHaveNoColon(y);
      FieldsOfTwo(y, z);
    }
  }

  lemma LabelFieldsWithHours(c: Clock)
    requires c.hours > 0
    ensures Fields(Label(c)) == [ToString(c.hours), PadTwo(ToString(c.minutes)), PadTwo(ToString(c.seconds))]
  {
    var x, y, z := ToString(c.hours), PadTwo(ToString(c.minutes)), PadTwo(ToString(c.seconds));
    ValueOfPadded(c.minutes);
    ValueOfPadded(c.seconds);
    DigitsHaveNoColon(x);
    DigitsHaveNoColon(y);
    DigitsHaveNoColon(z);
    assert Label(c) == x + ":" + y + ":" + z;
    FieldsOfThree(x, y, z);
  }

  /** `parseISODuration` and `isoDurationToSeconds` read the same groups: the
      label of any input shows exactly the duration the seconds count measures. */
  lemma LabelAgreesWithSeconds(s: string)
    ensures ParseLabel(DurationLabel(s)).Some?
    ensures TotalSeconds(ParseLabel(DurationLabel(s)).value) == Seconds(s)
  {
    LabelRoundTrip(Components(s));
  }
}
