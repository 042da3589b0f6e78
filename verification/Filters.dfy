/** Subject filters of the processor's consumer and what they let through. */
module Filters {
  import opened Text
  import opened Subjects

  // ---------------------------------------------------------------- what a pattern matches

  /** Token semantics: `*` stands for any one token, a final `>` for one or more. */
  predicate Accepts(pattern: seq<string>, subject: seq<string>) {
    if pattern == [] then subject == []
    else if pattern == [">"] then subject != []
    else subject != [] && (pattern[0] == "*" || pattern[0] == subject[0]) && Accepts(pattern[1..], subject[1..])
  }

  /** A subject, given by its tokens, is matched by a filter as written. */
  predicate Matches(filter: string, subject: seq<string>) {
    Accepts(Split(filter), subject)
  }

  // ---------------------------------------------------------------- subsumption

  /** subjectMatchesFilter */
  predicate Covers(filter: string, subject: string) {
    var f, s := TrimSpace(filter), TrimSpace(subject);
    s != "" && f != "" && (f == ">" || s == f || (HasSuffix(f, ".>") && HasPrefix(s, f[..|f| - 1])))
  }

  /** A longer pattern under a common beginning matches no more than that beginning followed by `>`. */
  lemma {:induction false} TailIsCovered(head: seq<string>, rest: seq<string>, subject: seq<string>)
    requires rest != [] && Accepts(head + rest, subject)
    ensures Accepts(head + [">"], subject)
  {
    if head == [] {
      assert head + rest == rest && head + [">"] == [">"];
    } else {
      assert (head + rest)[1..] == head[1..] + rest && (head + [">"])[1..] == head[1..] + [">"];
      assert |head + rest| > 1 && |head + [">"]| > 1;
      TailIsCovered(head[1..], rest, subject[1..]);
    }
  }

  /** For well-formed patterns, a filter that covers a pattern matches every subject the pattern does. */
  lemma CoversMeansInclusion(filter: string, pattern: string, subject: seq<string>)
    requires Covers(filter, pattern) && Matches(TrimSpace(pattern), subject)
    ensures Matches(TrimSpace(filter), subject)
  {
    var f, p := TrimSpace(filter), TrimSpace(pattern);
    if f == ">" {
      SplitDotFree(f);
      NeverEmpty(Split(p), subject);
    } else if f != p {
      var stem := f[..|f| - 2];
      assert f[..|f| - 1] == stem + ".";
      var rest := p[|f| - 1..];
      assert p == stem + "." + rest;
      assert f == stem + "." + ">";
      SplitParts(stem, rest);
      SplitParts(stem, ">");
      SplitDotFree(">");
      TailIsCovered(Split(stem), Split(rest), subject);
    }
  }

  lemma NeverEmpty(pattern: seq<string>, subject: seq<string>)
    requires pattern != [] && Accepts(pattern, subject)
    ensures Accepts([">"], subject)
  {
  }

  // ---------------------------------------------------------------- the effective list

  const MICROSTRUCTURE := "evidence.microstructure_evidence.v1.>"
  const LIQUIDITY := "liquidity.evidence.v1.>"

  /** Some filter of the list matches the subject; entries are trimmed and blank ones are not filters. */
  predicate Lets(filters: seq<string>, subject: seq<string>) {
    exists i :: 0 <= i < |filters| && LetsOne(filters[i], subject)
  }

  predicate LetsOne(filter: string, subject: seq<string>) {
    TrimSpace(filter) != "" && Matches(TrimSpace(filter), subject)
  }

  lemma LetsMore(filters: seq<string>, filter: string, subject: seq<string>)
    ensures Lets(filters + [filter], subject) <==> Lets(filters, subject) || LetsOne(filter, subject)
  {
    var more := filters + [filter];
    if i :| 0 <= i < |filters| && LetsOne(filters[i], subject) {
      assert LetsOne(more[i], subject);
    }
    if LetsOne(filter, subject) {
      assert LetsOne(more[|filters|], subject);
    }
  }

  /** appendFilterSubjectIfMissing: whether or not it appends, exactly the new pattern's subjects are added */
  method AppendIfMissing(base: seq<string>, subject: string) returns (r: seq<string>)
    ensures forall s :: Lets(r, s) <==> Lets(base, s) || LetsOne(subject, s)
    ensures r == base || r == base + [TrimSpace(subject)]
  {
    var wanted := TrimSpace(subject);
    TrimTwice(subject);
    if wanted == "" {
      return base;
    }
    for i := 0 to |base| {
      TrimTwice(base[i]);
      if Covers(TrimSpace(base[i]), wanted) {
        AlreadyCovered(base, i, subject);
        return base;
      }
    }
    r := base + [wanted];
    forall s ensures Lets(r, s) <==> Lets(base, s) || LetsOne(subject, s) {
      LetsMore(base, wanted, s);
    }
  }

  lemma AlreadyCovered(base: seq<string>, i: nat, pattern: string)
    requires i < |base| && Covers(TrimSpace(base[i]), TrimSpace(pattern))
    ensures forall s :: LetsOne(pattern, s) ==> Lets(base, s)
  {
    TrimTwice(base[i]);
    TrimTwice(pattern);
    forall s | LetsOne(pattern, s) ensures Lets(base, s) {
      CoversMeansInclusion(TrimSpace(base[i]), TrimSpace(pattern), s);
      assert LetsOne(base[i], s);
    }
  }

  /** The last loop of effectiveJetStreamFilters: trimmed, without blanks and without repeats, and meaning the same */
  method Deduplicate(base: seq<string>) returns (out: seq<string>)
    ensures forall s :: Lets(out, s) <==> Lets(base, s)
    ensures forall i :: 0 <= i < |out| ==> out[i] != "" && out[i] == TrimSpace(out[i])
    ensures forall i, j :: 0 <= i < j < |out| ==> out[i] != out[j]
  {
    out := [];
    for i := 0 to |base|
      invariant forall s :: Lets(out, s) <==> Lets(base[..i], s)
      invariant forall j :: 0 <= j < |out| ==> out[j] != "" && out[j] == TrimSpace(out[j])
      invariant forall j, k :: 0 <= j < k < |out| ==> out[j] != out[k]
    {
      var subject := TrimSpace(base[i]);
      TrimTwice(base[i]);
      assert base[..i + 1] == base[..i] + [base[i]];
      var isNew := subject != "" && subject !in out;
      KeptMeansSame(out, base[..i], base[i], isNew);
      if isNew {
        out := out + [subject];
      }
    }
    assert base[..|base|] == base;
  }

  lemma KeptMeansSame(out: seq<string>, base: seq<string>, filter: string, isNew: bool)
    requires forall s :: Lets(out, s) <==> Lets(base, s)
    requires isNew <==> TrimSpace(filter) != "" && TrimSpace(filter) !in out
    ensures forall s :: Lets(if isNew then out + [TrimSpace(filter)] else out, s) <==> Lets(base + [filter], s)
  {
    var t := TrimSpace(filter);
    TrimTwice(filter);
    forall s ensures Lets(if isNew then out + [t] else out, s) <==> Lets(base + [filter], s) {
      LetsMore(base, filter, s);
      LetsMore(out, t, s);
      if t in out && LetsOne(filter, s) {
        var i :| 0 <= i < |out| && out[i] == t;
        assert LetsOne(out[i], s);
      }
    }
  }

  /**
   * effectiveJetStreamFilters: the list matches exactly what the configured filters match, together with the two required
   * patterns and, when the cross-venue join is on, the configured join subject.
   */
  method EffectiveFilters(configured: seq<string>, joinEnabled: bool, joinSubject: string) returns (out: seq<string>)
    ensures forall s :: Lets(out, s) <==>
              || Lets(configured, s) || LetsOne(MICROSTRUCTURE, s) || LetsOne(LIQUIDITY, s)
              || (joinEnabled && LetsOne(joinSubject, s))
    ensures forall i, j :: 0 <= i < j < |out| ==> out[i] != out[j]
  {
    var base := AppendIfMissing(configured, MICROSTRUCTURE);
    base := AppendIfMissing(base, LIQUIDITY);
    if joinEnabled && TrimSpace(joinSubject) != "" {
      base := AppendIfMissing(base, TrimSpace(joinSubject));
      TrimTwice(joinSubject);
      assert forall s :: LetsOne(TrimSpace(joinSubject), s) <==> LetsOne(joinSubject, s);
    }
    out := Deduplicate(base);
  }
}
