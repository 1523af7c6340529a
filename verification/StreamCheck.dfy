/**
 The test-data generator and the verifier of cmd/test-streammanager: neither what is
 generated nor the verdict depends on how the stream is cut into reads and writes.
 */
module StreamCheck {
  import opened Basics

  type Byte = char

  const ZERO := 0 as char

  const CAPITALS := "ABCDEFGHIJKLMNOPQRSTUVWXYZ"
  const SMALL := "abcdefghijklmnopqrstuvwxyz"
  const DIGITS := "0123456789"
  const BASE64_CHARS := CAPITALS + SMALL + DIGITS + "+/"

  /** The byte of the endless pattern at a position. */
  function Pattern(k: nat): Byte {
    BASE64_CHARS[k % 64]
  }

  /** `n` bytes of the pattern from a position on. */
  function Stretch(from: nat, n: nat): seq<Byte> {
    seq(n, i requires 0 <= i => Pattern(from + i))
  }

  predicate InSequence(s: string, first: char) {
    forall i | 0 <= i < |s| :: s[i] as int == first as int + i
  }

  lemma CapitalsInSequence()
    ensures |CAPITALS| == 26 && InSequence(CAPITALS, 'A')
  {}

  lemma SmallInSequence()
    ensures |SMALL| == 26 && InSequence(SMALL, 'a')
  {}

  lemma DigitsInSequence()
    ensures |DIGITS| == 10 && InSequence(DIGITS, '0')
  {}

  /** The pattern in plain words: capitals, small letters, digits, plus and slash, over and over. */
  lemma PatternByCharacter(round: nat, i: nat)
    requires i < 64
    ensures var c := Pattern(64 * round + i);
      if i < 26 then c as int == 'A' as int + i
      else if i < 52 then c as int == 'a' as int + (i - 26)
      else if i < 62 then c as int == '0' as int + (i - 52)
      else c == if i == 62 then '+' else '/'
  {
    CapitalsInSequence();
    SmallInSequence();
    DigitsInSequence();
    assert (64 * round + i) % 64 == i;
  }

  lemma StretchMore(from: nat, n: nat)
    ensures Stretch(from, n + 1) == Stretch(from, n) + [Pattern(from + n)]
  {}

  lemma FrontAndRest(now: seq<Byte>, was: seq<Byte>, n: nat, front: seq<Byte>)
    requires n <= |now| == |was| && now[..n] == front
    requires forall j | n <= j < |now| :: now[j] == was[j]
    ensures now == front + was[n..]
  {
    assert now[n..] == was[n..];
  }

  /** How many bytes a read into a buffer of this length gives. */
  function ReadSize(total: int, generated: nat, len: nat): nat {
    if generated >= total then 0 else Min(len, total - generated)
  }

  class TestDataGenerator {
    const totalBytes: int
    var generated: nat

    constructor (totalBytes: int)
      ensures this.totalBytes == totalBytes && generated == 0
    {
      this.totalBytes := totalBytes;
      generated := 0;
    }

    /** Fills the front of `p`; leaves the rest as it was. */
    method Read(p: array<Byte>) returns (n: nat, eof: bool)
      modifies this, p
      ensures eof <==> old(generated) >= totalBytes
      ensures n == ReadSize(totalBytes, old(generated), p.Length) && generated == old(generated) + n
      ensures p[..] == Stretch(old(generated), n) + old(p[..])[n..]
    {
      if generated >= totalBytes {
        return 0, true;
      }
      var remaining := totalBytes - generated;
      var toRead := p.Length;
      if toRead > remaining {
        toRead := remaining;
      }
      for i := 0 to toRead
        modifies p
        invariant p[..i] == Stretch(generated, i)
        invariant forall j | i <= j < p.Length :: p[j] == old(p[j])
      {
        p[i] := Pattern(generated + i);
        assert p[..i + 1] == p[..i] + [p[i]];
        StretchMore(generated, i);
      }
      FrontAndRest(p[..], old(p[..]), toRead, Stretch(generated, toRead));
      generated := generated + toRead;
      return toRead, false;
    }
  }

  // ---------------------------------------------------------------- the verifier

  datatype Verdict = Verdict(total: int, generated: nat, totalReceived: nat, mismatches: nat, firstMismatch: int)

  /** What a fresh buffer of this length holds after the reference generator read into it. */
  function Reference(total: int, generated: nat, len: nat): (r: seq<Byte>)
    ensures |r| == len
  {
    var n := ReadSize(total, generated, len);
    Stretch(generated, n) + seq(len - n, _ => ZERO)
  }

  function Compare(v: Verdict, p: seq<Byte>, reference: seq<Byte>, n: nat): Verdict
    requires n <= |p| == |reference|
  {
    if n == 0 then v
    else
      var w := Compare(v, p, reference, n - 1);
      if p[n - 1] == reference[n - 1] then w
      else w.(mismatches := w.mismatches + 1,
              firstMismatch := if w.firstMismatch == -1 then v.totalReceived + n - 1 else w.firstMismatch)
  }

  function AfterWrite(v: Verdict, p: seq<Byte>): Verdict {
    var n := ReadSize(v.total, v.generated, |p|);
    Compare(v, p, Reference(v.total, v.generated, |p|), |p|)
      .(generated := v.generated + n, totalReceived := v.totalReceived + |p|)
  }

  class Verifier {
    const expectedGen: TestDataGenerator
    var totalReceived: nat
    var mismatches: nat
    var firstMismatch: int

    constructor (totalBytes: int)
      ensures State() == Verdict(totalBytes, 0, 0, 0, -1) && fresh(expectedGen)
    {
      expectedGen := new TestDataGenerator(totalBytes);
      totalReceived, mismatches, firstMismatch := 0, 0, -1;
    }

    function State(): Verdict
      reads this, expectedGen
    {
      Verdict(expectedGen.totalBytes, expectedGen.generated, totalReceived, mismatches, firstMismatch)
    }

    method Write(p: seq<Byte>) returns (n: nat)
      modifies this, expectedGen
      ensures n == |p| && State() == AfterWrite(old(State()), p)
    {
      var expected := new Byte[|p|](_ => ZERO);
      ghost var zeros := expected[..];
      var _, _ := expectedGen.Read(expected);
      ghost var was := old(State());
      assert expected[..] == Reference(was.total, was.generated, |p|) by {
        var k := ReadSize(was.total, was.generated, |p|);
        assert zeros[k..] == seq(|p| - k, _ => ZERO);
      }
      for i := 0 to |p|
        invariant expected[..] == Reference(was.total, was.generated, |p|)
        invariant expectedGen.generated == was.generated + ReadSize(was.total, was.generated, |p|)
        invariant totalReceived == was.totalReceived
        invariant var w := Compare(was, p, expected[..], i);
                  mismatches == w.mismatches && firstMismatch == w.firstMismatch
      {
        if p[i] != expected[i] {
          mismatches := mismatches + 1;
          if firstMismatch == -1 {
            firstMismatch := totalReceived + i;
          }
        }
      }
      totalReceived := totalReceived + |p|;
      CompareKeeps(was, p, expected[..], |p|);
      return |p|;
    }
  }

  lemma CompareKeeps(v: Verdict, p: seq<Byte>, reference: seq<Byte>, n: nat)
    requires n <= |p| == |reference|
    ensures Compare(v, p, reference, n) ==
            v.(mismatches := Compare(v, p, reference, n).mismatches,
               firstMismatch := Compare(v, p, reference, n).firstMismatch)
  {}

  // ---------------------------------------------------------------- cutting into reads

  function Sum(sizes: seq<nat>): nat {
    if sizes == [] then 0 else Sum(sizes[..|sizes| - 1]) + sizes[|sizes| - 1]
  }

  /** The bytes of successive reads with buffers of these sizes, and the generator's counter. */
  function Reads(total: int, sizes: seq<nat>): (seq<Byte>, nat) {
    if sizes == [] then ([], 0)
    else
      var (bytes, generated) := Reads(total, sizes[..|sizes| - 1]);
      var n := ReadSize(total, generated, sizes[|sizes| - 1]);
      (bytes + Stretch(generated, n), generated + n)
  }

  lemma StretchConcat(g: nat, n: nat)
    ensures Stretch(0, g) + Stretch(g, n) == Stretch(0, g + n)
  {}

  /** The stream depends only on how much was asked for, not on the sizes of the reads. */
  lemma {:induction false} ReadsAreThePattern(total: int, sizes: seq<nat>)
    ensures var n := Min(Sum(sizes), Max(total, 0)); Reads(total, sizes) == (Stretch(0, n), n)
  {
    if sizes != [] {
      ReadsAreThePattern(total, sizes[..|sizes| - 1]);
      var g := Reads(total, sizes[..|sizes| - 1]).1;
      var n := ReadSize(total, g, sizes[|sizes| - 1]);
      StretchConcat(g, n);
    } else {
      assert Stretch(0, 0) == [];
    }
  }

  // ---------------------------------------------------------------- cutting into writes

  function Flatten(chunks: seq<seq<Byte>>): seq<Byte> {
    if chunks == [] then [] else Flatten(chunks[..|chunks| - 1]) + chunks[|chunks| - 1]
  }

  function Writes(total: int, chunks: seq<seq<Byte>>): Verdict {
    if chunks == [] then Verdict(total, 0, 0, 0, -1)
    else AfterWrite(Writes(total, chunks[..|chunks| - 1]), chunks[|chunks| - 1])
  }

  /** The byte due at a position: the pattern, and zero after the end. */
  function Due(total: int, k: nat): Byte {
    if k < total then Pattern(k) else ZERO
  }

  ghost function WrongPositions(total: int, received: seq<Byte>): set<nat> {
    set k: nat | k < |received| && received[k] != Due(total, k)
  }

  predicate IsFirstWrong(total: int, received: seq<Byte>, first: int) {
    if first == -1 then forall k: nat | k < |received| :: received[k] == Due(total, k)
    else
      0 <= first < |received| && received[first] != Due(total, first) &&
      forall k: nat | k < first :: received[k] == Due(total, k)
  }

  ghost predicate Correct(v: Verdict, received: seq<Byte>) {
    && v.generated == Min(|received|, Max(v.total, 0))
    && v.totalReceived == |received|
    && Counted(v.total, received, v.mismatches, v.firstMismatch)
  }

  ghost predicate Counted(total: int, received: seq<Byte>, mismatches: nat, first: int) {
    mismatches == |WrongPositions(total, received)| && IsFirstWrong(total, received, first)
  }

  lemma ReferenceIsDue(total: int, received: nat, len: nat, i: nat)
    requires i < len
    ensures Reference(total, Min(received, Max(total, 0)), len)[i] == Due(total, received + i)
  {}

  function LaterFirst(first: int, at: nat, wrong: bool): int {
    if wrong && first == -1 then at else first
  }

  lemma OneMoreByte(total: int, received: seq<Byte>, b: Byte, first: int)
    requires IsFirstWrong(total, received, first)
    ensures var wrong := b != Due(total, |received|); var more := received + [b];
      |WrongPositions(total, more)| == |WrongPositions(total, received)| + (if wrong then 1 else 0) &&
      IsFirstWrong(total, more, LaterFirst(first, |received|, wrong))
  {
    var more := received + [b];
    var here := if b == Due(total, |received|) then {} else {|received|};
    assert forall k: nat | k < |received| :: more[k] == received[k];
    assert WrongPositions(total, more) == WrongPositions(total, received) + here;
  }

  lemma CompareMore(v: Verdict, p: seq<Byte>, reference: seq<Byte>, n: nat, before: seq<Byte>)
    requires 0 < n <= |p| == |reference| && |before| == v.totalReceived + n - 1
    requires reference[n - 1] == Due(v.total, |before|)
    requires var w := Compare(v, p, reference, n - 1); Counted(v.total, before, w.mismatches, w.firstMismatch)
    ensures var w := Compare(v, p, reference, n); Counted(v.total, before + [p[n - 1]], w.mismatches, w.firstMismatch)
  {
    OneMoreByte(v.total, before, p[n - 1], Compare(v, p, reference, n - 1).firstMismatch);
  }

  lemma {:induction false} CompareCounts(v: Verdict, received: seq<Byte>, p: seq<Byte>, reference: seq<Byte>, n: nat)
    requires n <= |p| == |reference| && v.totalReceived == |received|
    requires Counted(v.total, received, v.mismatches, v.firstMismatch)
    requires forall i | 0 <= i < |p| :: reference[i] == Due(v.total, |received| + i)
    ensures var w := Compare(v, p, reference, n);
            Counted(v.total, received + p[..n], w.mismatches, w.firstMismatch)
  {
    if n == 0 {
      assert received + p[..0] == received;
    } else {
      CompareCounts(v, received, p, reference, n - 1);
      var before := received + p[..n - 1];
      assert |before| == |received| + (n - 1) && reference[n - 1] == Due(v.total, |before|);
      OneMoreOf(received, p, n);
      CompareMore(v, p, reference, n, before);
    }
  }

  lemma OneMoreOf(received: seq<Byte>, p: seq<Byte>, n: nat)
    requires 0 < n <= |p|
    ensures received + p[..n] == received + p[..n - 1] + [p[n - 1]]
  {}

  /** The verdict is a function of the bytes received, however they were cut into writes:
      `mismatches` counts the wrong positions and `firstMismatch` is the least of them. */
  lemma {:induction false} VerdictIsCorrect(total: int, chunks: seq<seq<Byte>>)
    ensures Correct(Writes(total, chunks), Flatten(chunks)) && Writes(total, chunks).total == total
  {
    if chunks != [] {
      var before, last := chunks[..|chunks| - 1], chunks[|chunks| - 1];
      VerdictIsCorrect(total, before);
      var v := Writes(total, before);
      var reference := Reference(total, v.generated, |last|);
      forall i | 0 <= i < |last| ensures reference[i] == Due(total, |Flatten(before)| + i) {
        ReferenceIsDue(total, |Flatten(before)|, |last|, i);
      }
      CompareCounts(v, Flatten(before), last, reference, |last|);
      CompareKeeps(v, last, reference, |last|);
      assert last[..|last|] == last;
    } else {
      assert WrongPositions(total, []) == {};
    }
  }

  lemma FirstWrongUnique(total: int, received: seq<Byte>, a: int, b: int)
    requires IsFirstWrong(total, received, a) && IsFirstWrong(total, received, b)
    ensures a == b
  {}

  /** Two ways of cutting the same bytes give the same verdict. */
  lemma CutsAgree(total: int, chunks: seq<seq<Byte>>, others: seq<seq<Byte>>)
    requires Flatten(chunks) == Flatten(others)
    ensures Writes(total, chunks) == Writes(total, others)
  {
    VerdictIsCorrect(total, chunks);
    VerdictIsCorrect(total, others);
    FirstWrongUnique(total, Flatten(chunks), Writes(total, chunks).firstMismatch, Writes(total, others).firstMismatch);
  }

  /** What the generator gives, read and written in any pieces, verifies without a mismatch. */
  lemma GeneratedVerifies(total: int, sizes: seq<nat>, chunks: seq<seq<Byte>>)
    requires Flatten(chunks) == Reads(total, sizes).0
    ensures var v := Writes(total, chunks); v.mismatches == 0 && v.firstMismatch == -1
  {
    ReadsAreThePattern(total, sizes);
    VerdictIsCorrect(total, chunks);
    assert WrongPositions(total, Flatten(chunks)) == {};
  }

  /** On a stream of full length the verdict has no mismatches exactly for the generator's bytes. */
  lemma CleanVerdictMeansPattern(total: int, chunks: seq<seq<Byte>>)
    requires |Flatten(chunks)| == total
    ensures Writes(total, chunks).mismatches == 0 <==> Flatten(chunks) == Stretch(0, total)
  {
    VerdictIsCorrect(total, chunks);
    var s := Flatten(chunks);
    var wrong := WrongPositions(total, s);
    if wrong == {} {
      forall k: nat | k < |s| ensures s[k] == Pattern(k) {
        assert k !in wrong;
      }
    } else {
      var k :| k in wrong;
      assert s[k] != Stretch(0, total)[k];
    }
  }
}
