/** The lesson card's colour: a hash of the subject name picks one of six
    colour classes, so a subject always gets the same colour. */
module ScheduleCard {

  /** `subjectColors`. */
  const SubjectColors: seq<string> := [
    "bg-blue-100 text-blue-800 dark:bg-blue-900/30 dark:text-blue-400",
    "bg-green-100 text-green-800 dark:bg-green-900/30 dark:text-green-400",
    "bg-purple-100 text-purple-800 dark:bg-purple-900/30 dark:text-purple-400",
    "bg-pink-100 text-pink-800 dark:bg-pink-900/30 dark:text-pink-400",
    "bg-orange-100 text-orange-800 dark:bg-orange-900/30 dark:text-orange-400",
    "bg-teal-100 text-teal-800 dark:bg-teal-900/30 dark:text-teal-400"]

  /** `split('').reduce((acc, c) => acc + c.charCodeAt(0), 0)`: the character
      codes added up from the left. */
  function CharCodeSum(s: string): (r: nat)
  {
    if s == [] then 0 else CharCodeSum(s[..|s| - 1]) + s[|s| - 1] as nat
  }

  /** Summing two pieces is adding their sums. */
  lemma {:induction false} CharCodeSumAppend(a: string, b: string)
    ensures CharCodeSum(a + b) == CharCodeSum(a) + CharCodeSum(b)
    decreases |b|
  {
    if b == [] {
      assert a + b == a;
    } else {
      assert (a + b)[..|a + b| - 1] == a + b[..|b| - 1];
      CharCodeSumAppend(a, b[..|b| - 1]);
    }
  }

  /** The sum does not depend on the order of the characters. */
  lemma {:induction false} CharCodeSumPermutation(a: string, b: string)
    requires multiset(a) == multiset(b)
    ensures CharCodeSum(a) == CharCodeSum(b)
    decreases |a|
  {
    if a != [] {
      var x := a[|a| - 1];
      var init := a[..|a| - 1];
      assert a == init + [x];
      assert x in multiset(b);
      var k :| 0 <= k < |b| && b[k] == x;
      assert b == b[..k] + [x] + b[k + 1..];
      var rest := b[..k] + b[k + 1..];
      assert multiset(b) == multiset(rest) + multiset{x} by {
        assert multiset(b) == multiset(b[..k]) + multiset{x} + multiset(b[k + 1..]);
      }
      assert multiset(a) == multiset(init) + multiset{x};
      assert multiset(init) == multiset(a) - multiset{x};
      assert multiset(rest) == multiset(b) - multiset{x};
      CharCodeSumPermutation(init, rest);
      CharCodeSumAppend(b[..k] + [x], b[k + 1..]);
      CharCodeSumAppend(b[..k], [x]);
      CharCodeSumAppend(b[..k], b[k + 1..]);
      assert CharCodeSum([x]) == x as nat by {
        assert [x][..0] == [];
      }
    }
  }

  /** `hash % subjectColors.length`: the sum is never negative, so
      JavaScript's remainder is the mathematical one. */
  function ColorIndex(subject: string): (i: nat)
    ensures i < |SubjectColors|
    ensures (CharCodeSum(subject) - i) % |SubjectColors| == 0
  {
    CharCodeSum(subject) % |SubjectColors|
  }

  /** `getColorForSubject(subject)`. */
  function ColorForSubject(subject: string): (r: string)
    ensures r in SubjectColors
    ensures r == SubjectColors[ColorIndex(subject)]
  {
    SubjectColors[ColorIndex(subject)]
  }

  /** Subject names made of the same characters share a colour. */
  lemma AnagramsShareColor(a: string, b: string)
    requires multiset(a) == multiset(b)
    ensures ColorForSubject(a) == ColorForSubject(b)
  {
    CharCodeSumPermutation(a, b);
  }

  /** A missing subject name gets the first colour. */
  lemma EmptySubjectIsBlue()
    ensures ColorForSubject("") == SubjectColors[0]
  {
  }
}
