/** Sequence and string functions that several components use. */
module Sequences {

  /** Everything the parts hold, in order. */
  function Join<T>(parts: seq<seq<T>>): seq<T> {
    if parts == [] then [] else Join(parts[..|parts| - 1]) + parts[|parts| - 1]
  }

  lemma NothingJoined<T>(parts: seq<seq<T>>)
    ensures Join(parts[..0]) == []
  {
  }

  lemma JoinSnoc<T>(parts: seq<seq<T>>, i: nat)
    requires i < |parts|
    ensures Join(parts[..i + 1]) == Join(parts[..i]) + parts[i]
  {
    assert parts[..i + 1][..i] == parts[..i];
  }

  lemma {:induction false} JoinPrefix<T>(parts: seq<seq<T>>, k: nat)
    requires k <= |parts|
    ensures Join(parts[..k]) <= Join(parts)
    decreases |parts| - k
  {
    if k == |parts| {
      assert parts[..k] == parts;
    } else {
      JoinPrefix(parts, k + 1);
      JoinSnoc(parts, k);
    }
  }

  predicate EndsWith(s: string, suffix: string) {
    |suffix| <= |s| && s[|s| - |suffix|..] == suffix
  }

  predicate OccursAt(text: string, part: string, p: nat) {
    p + |part| <= |text| && text[p..p + |part|] == part
  }

  predicate Contains(s: string, part: string) {
    part <= s || (s != "" && Contains(s[1..], part))
  }

  lemma OccursInTail(s: string, part: string, p: nat)
    requires s != ""
    ensures OccursAt(s[1..], part, p) <==> OccursAt(s, part, p + 1)
  {
    if p + |part| <= |s| - 1 {
      assert s[1..][p..p + |part|] == s[p + 1..p + 1 + |part|];
    }
  }

  lemma {:induction false} ContainedOccurs(s: string, part: string) returns (p: nat)
    requires Contains(s, part)
    ensures OccursAt(s, part, p)
  {
    if part <= s {
      p := 0;
    } else {
      p := ContainedOccurs(s[1..], part);
      OccursInTail(s, part, p);
      p := p + 1;
    }
  }

  lemma {:induction false} OccurringIsContained(s: string, part: string, p: nat)
    requires OccursAt(s, part, p)
    ensures Contains(s, part)
  {
    if p == 0 {
      assert s[..|part|] == part;
    } else {
      OccursInTail(s, part, p - 1);
      OccurringIsContained(s[1..], part, p - 1);
    }
  }

  lemma ContainsMeansOccurs(s: string, part: string)
    ensures Contains(s, part) <==> exists p: nat :: OccursAt(s, part, p)
  {
    if Contains(s, part) {
      var p := ContainedOccurs(s, part);
    }
    if p: nat :| OccursAt(s, part, p) {
      OccurringIsContained(s, part, p);
    }
  }

  /** The ASCII characters that str.strip removes. */
  predicate IsSpace(c: char) {
    c == ' ' || '\t' <= c <= '\r' || '\U{1C}' <= c <= '\U{1F}'
  }

  function StripLeft(s: string): string {
    if s != "" && IsSpace(s[0]) then StripLeft(s[1..]) else s
  }

  function StripRight(s: string): string {
    if s != "" && IsSpace(s[|s| - 1]) then StripRight(s[..|s| - 1]) else s
  }

  function Strip(s: string): string {
    StripRight(StripLeft(s))
  }

  predicate AllSpace(s: string) {
    forall k :: 0 <= k < |s| ==> IsSpace(s[k])
  }

  lemma {:induction false} StripsLeft(left: string, s: string)
    requires AllSpace(left) && (s != "" ==> !IsSpace(s[0]))
    ensures StripLeft(left + s) == s
  {
    if left == "" {
      assert left + s == s;
    } else {
      assert (left + s)[1..] == left[1..] + s;
      StripsLeft(left[1..], s);
    }
  }

  lemma {:induction false} StripsRight(s: string, right: string)
    requires AllSpace(right) && (s != "" ==> !IsSpace(s[|s| - 1]))
    ensures StripRight(s + right) == s
  {
    if right == "" {
      assert s + right == s;
    } else {
      assert (s + right)[..|s + right| - 1] == s + right[..|right| - 1];
      StripsRight(s, right[..|right| - 1]);
    }
  }

  /** Stripping takes exactly the space around a text. */
  lemma StripsExactly(left: string, s: string, right: string)
    requires AllSpace(left) && AllSpace(right) && s != "" && !IsSpace(s[0]) && !IsSpace(s[|s| - 1])
    ensures Strip(left + s + right) == s
  {
    assert left + s + right == left + (s + right);
    StripsLeft(left, s + right);
    StripsRight(s, right);
  }
}
