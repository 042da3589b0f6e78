/** Dotted subjects: splitting into tokens, printing an envelope's subject, and reading it back. */
module Subjects {
  import opened Text

  // ---------------------------------------------------------------- tokens

  /** strings.Split(s, ".") */
  function Split(s: string): (r: seq<string>)
    ensures |r| >= 1
  {
    if s == "" then [""] else Grown(s[0], Split(s[1..]))
  }

  /** The tokens once one more character is read in front: a dot opens a new token. */
  function Grown(c: char, tokens: seq<string>): (r: seq<string>)
    requires |tokens| >= 1
    ensures |r| >= 1
  {
    if c == '.' then [""] + tokens else [[c] + tokens[0]] + tokens[1..]
  }

  lemma FirstGrows(c: char, l: seq<string>, r: seq<string>)
    requires |l| >= 1
    ensures Grown(c, l + r) == Grown(c, l) + r
  {
  }

  /** strings.Join(tokens, ".") */
  function Join(tokens: seq<string>): string
    requires |tokens| >= 1
  {
    if |tokens| == 1 then tokens[0] else tokens[0] + "." + Join(tokens[1..])
  }

  predicate DotFree(s: string) {
    '.' !in s
  }

  lemma {:induction false} SplitDotFree(s: string)
    requires DotFree(s)
    ensures Split(s) == [s]
  {
    if s != "" {
      SplitDotFree(s[1..]);
      assert s == [s[0]] + s[1..];
    }
  }

  lemma {:induction false} SplitParts(a: string, b: string)
    ensures Split(a + "." + b) == Split(a) + Split(b)
  {
    var s := a + "." + b;
    if a == "" {
      assert s == "." + b;
      assert s[1..] == b;
    } else {
      SplitParts(a[1..], b);
      assert s[0] == a[0] && s[1..] == a[1..] + "." + b;
      FirstGrows(a[0], Split(a[1..]), Split(b));
      assert Split(s) == Grown(a[0], Split(a[1..]) + Split(b));
    }
  }

  /** Every token of a split is without dots. */
  lemma {:induction false} SplitTokens(s: string, i: nat)
    requires i < |Split(s)|
    ensures DotFree(Split(s)[i])
  {
    if s != "" {
      if s[0] == '.' {
        if i > 0 { SplitTokens(s[1..], i - 1); }
      } else {
        SplitTokens(s[1..], i);
      }
    }
  }

  lemma InFront(c: char, token: string, rest: string)
    ensures ([c] + token) + "." + rest == [c] + (token + "." + rest) && "" + "." + rest == "." + rest
  {
  }

  lemma JoinOfGrown(c: char, tokens: seq<string>)
    requires |tokens| >= 1
    ensures Join(Grown(c, tokens)) == [c] + Join(tokens)
  {
    var all := Grown(c, tokens);
    if c == '.' {
      assert all[1..] == tokens;
      InFront(c, "", Join(tokens));
    } else if |tokens| > 1 {
      assert all[1..] == tokens[1..];
      InFront(c, tokens[0], Join(tokens[1..]));
    }
  }

  lemma {:induction false} JoinOfSplit(s: string)
    ensures Join(Split(s)) == s
  {
    if s != "" {
      JoinOfSplit(s[1..]);
      JoinOfGrown(s[0], Split(s[1..]));
      assert s == [s[0]] + s[1..];
    }
  }

  // ---------------------------------------------------------------- the taxonomy

  predicate BadChar(c: char) {
    c == ' ' || c == '\t' || c == '\r' || c == '\n' || c == '*' || c == '>'
  }

  /** strings.ContainsAny(s, " \t\r\n*>") is false */
  predicate Concrete(s: string) {
    forall i :: 0 <= i < |s| ==> !BadChar(s[i])
  }

  predicate NoBlank(tokens: seq<string>) {
    forall i :: 0 <= i < |tokens| ==> TrimSpace(tokens[i]) != ""
  }

  datatype Taxonomy = Invalid | Taxonomy(event: string, version: string, venue: string, instrument: string)

  /** splitSubjectTaxonomy */
  function SplitTaxonomy(subject: string): Taxonomy {
    var s := TrimSpace(subject);
    var tokens := Split(s);
    var n := |tokens|;
    if s == "" || !Concrete(s) || n < 4 || !NoBlank(tokens) then Invalid
    else Taxonomy(Join(tokens[..n - 3]), tokens[n - 3], tokens[n - 2], tokens[n - 1])
  }

  // ---------------------------------------------------------------- printing

  datatype Envelope = Envelope(typ: string, version: int, venue: string, instrument: string)

  function Digit(d: nat): char
    requires d < 10
  {
    ('0' as int + d) as char
  }

  /** strconv.Itoa on natural numbers */
  function Itoa(n: nat): string {
    if n < 10 then [Digit(n)] else Itoa(n / 10) + [Digit(n % 10)]
  }

  predicate IsDigit(c: char) {
    '0' <= c <= '9'
  }

  predicate IsAlnum(c: char) {
    'A' <= c <= 'Z' || IsDigit(c)
  }

  lemma {:induction false} ItoaDigits(n: nat)
    ensures Itoa(n) != "" && forall c :: c in Itoa(n) ==> IsDigit(c)
  {
    if n >= 10 { ItoaDigits(n / 10); }
  }

  /** The number a text of digits stands for. */
  function ValueOf(s: string): int {
    if s == "" then 0 else 10 * ValueOf(s[..|s| - 1]) + (s[|s| - 1] as int - '0' as int)
  }

  /** A printed number stands for that number, without leading zeros; so different numbers print differently. */
  lemma {:induction false} ItoaReadsBack(n: nat)
    ensures ValueOf(Itoa(n)) == n && (|Itoa(n)| > 1 ==> Itoa(n)[0] != '0') && Itoa(n) != ""
    ensures n > 0 ==> Itoa(n)[0] != '0'
  {
    if n >= 10 {
      ItoaReadsBack(n / 10);
      assert Itoa(n)[..|Itoa(n)| - 1] == Itoa(n / 10);
    } else {
      assert [Digit(n)][..0] == "";
    }
  }

  function OrUnknown(s: string, unknown: string): string {
    if s == "" then unknown else s
  }

  function EventOf(env: Envelope): string {
    OrUnknown(ToLower(TrimSpace(env.typ)), "unknown")
  }

  function VersionOf(env: Envelope): string {
    "v" + Itoa(if env.version <= 0 then 1 else env.version)
  }

  function VenueOf(env: Envelope): string {
    OrUnknown(ToLower(TrimSpace(env.venue)), "unknown")
  }

  /** The letters and digits of an upper-case text, in order. */
  function Alnum(raw: string): string {
    if raw == "" then "" else (if IsAlnum(raw[0]) then [raw[0]] else []) + Alnum(raw[1..])
  }

  function InstrumentOf(env: Envelope): string {
    OrUnknown(Alnum(ToUpper(TrimSpace(env.instrument))), "UNKNOWN")
  }

  lemma {:induction false} AlnumMeans(raw: string)
    ensures forall c :: c in Alnum(raw) ==> IsAlnum(c)
    ensures (forall i :: 0 <= i < |raw| ==> IsAlnum(raw[i])) ==> Alnum(raw) == raw
  {
    if raw != "" {
      AlnumMeans(raw[1..]);
      assert raw == [raw[0]] + raw[1..];
    }
  }

  lemma {:induction false} AlnumOneMore(a: string, c: char)
    ensures Alnum(a + [c]) == Alnum(a) + (if IsAlnum(c) then [c] else [])
  {
    if a == "" {
      assert a + [c] == [c] && [c][1..] == "";
    } else {
      AlnumOneMore(a[1..], c);
      var first, last := if IsAlnum(a[0]) then [a[0]] else "", if IsAlnum(c) then [c] else "";
      assert (a + [c])[0] == a[0] && (a + [c])[1..] == a[1..] + [c];
      assert Alnum(a + [c]) == first + (Alnum(a[1..]) + last) == (first + Alnum(a[1..])) + last;
    }
  }

  method IsUpperAlphaNumeric(s: string) returns (ok: bool)
    ensures ok <==> forall i :: 0 <= i < |s| ==> IsAlnum(s[i])
  {
    for i := 0 to |s|
      invariant forall j :: 0 <= j < i ==> IsAlnum(s[j])
    {
      if !IsAlnum(s[i]) {
        return false;
      }
    }
    return true;
  }

  /** normalizeSubjectInstrument: the quick way out and the builder agree */
  method NormalizeInstrument(instrument: string) returns (r: string)
    ensures r == InstrumentOf(Envelope("", 0, "", instrument))
  {
    var raw := ToUpper(TrimSpace(instrument));
    AlnumMeans(raw);
    if raw == "" {
      return "UNKNOWN";
    }
    var plain := IsUpperAlphaNumeric(raw);
    if plain {
      return raw;
    }
    var b := "";
    for i := 0 to |raw|
      invariant b == Alnum(raw[..i])
    {
      assert raw[..i + 1] == raw[..i] + [raw[i]];
      AlnumOneMore(raw[..i], raw[i]);
      if IsAlnum(raw[i]) {
        b := b + [raw[i]];
      }
    }
    assert raw[..|raw|] == raw;
    return if |b| == 0 then "UNKNOWN" else b;
  }

  /** SubjectFromEnvelope */
  function SubjectOf(env: Envelope): string {
    EventOf(env) + "." + VersionOf(env) + "." + VenueOf(env) + "." + InstrumentOf(env)
  }

  // ---------------------------------------------------------------- reading back

  /** What the taxonomy can read back: no blanks or wildcards, no empty event token, and no dot in the venue. */
  predicate Printable(env: Envelope) {
    && Concrete(EventOf(env)) && NoBlank(Split(EventOf(env)))
    && Concrete(VenueOf(env)) && DotFree(VenueOf(env))
  }

  predicate SolidEnds(s: string) {
    s != "" && !IsSpace(s[0]) && !IsSpace(s[|s| - 1])
  }

  lemma {:induction false} TrimLeftSolid(s: string)
    ensures TrimLeft(s) == "" || !IsSpace(TrimLeft(s)[0])
  {
    if s != "" && IsSpace(s[0]) { TrimLeftSolid(s[1..]); }
  }

  lemma {:induction false} TrimRightSolid(s: string)
    ensures TrimRight(s) == "" || !IsSpace(TrimRight(s)[|TrimRight(s)| - 1])
    ensures TrimRight(s) <= s
  {
    if s != "" && IsSpace(s[|s| - 1]) { TrimRightSolid(s[..|s| - 1]); }
  }

  lemma TrimmedSolid(s: string)
    ensures TrimSpace(s) == "" || SolidEnds(TrimSpace(s))
  {
    TrimLeftSolid(s);
    TrimRightSolid(TrimLeft(s));
  }

  lemma SolidIsTrimmed(s: string)
    requires SolidEnds(s)
    ensures TrimSpace(s) == s
  {
  }

  lemma TrimTwice(s: string)
    ensures TrimSpace(TrimSpace(s)) == TrimSpace(s)
  {
    TrimmedSolid(s);
    if TrimSpace(s) != "" { SolidIsTrimmed(TrimSpace(s)); }
  }

  lemma LowerSolid(s: string)
    requires SolidEnds(s)
    ensures SolidEnds(ToLower(s))
  {
  }

  lemma PartsAreSolid(env: Envelope)
    ensures SolidEnds(EventOf(env)) && SolidEnds(VenueOf(env)) && SolidEnds(InstrumentOf(env)) && SolidEnds(VersionOf(env))
    ensures Concrete(InstrumentOf(env)) && Concrete(VersionOf(env)) && DotFree(InstrumentOf(env)) && DotFree(VersionOf(env))
  {
    TrimmedSolid(env.typ);
    TrimmedSolid(env.venue);
    if TrimSpace(env.typ) != "" { LowerSolid(TrimSpace(env.typ)); }
    if TrimSpace(env.venue) != "" { LowerSolid(TrimSpace(env.venue)); }
    InstrumentSolid(env);
    VersionSolid(env);
  }

  lemma InstrumentSolid(env: Envelope)
    ensures SolidEnds(InstrumentOf(env)) && Concrete(InstrumentOf(env)) && DotFree(InstrumentOf(env))
  {
    var i := InstrumentOf(env);
    AlnumMeans(ToUpper(TrimSpace(env.instrument)));
    forall j | 0 <= j < |i| ensures IsAlnum(i[j]) {
      assert i[j] in i;
    }
  }

  lemma VersionSolid(env: Envelope)
    ensures SolidEnds(VersionOf(env)) && Concrete(VersionOf(env)) && DotFree(VersionOf(env))
  {
    var n: nat := if env.version <= 0 then 1 else env.version;
    var v := VersionOf(env);
    ItoaDigits(n);
    forall j | 0 < j < |v| ensures IsDigit(v[j]) {
      assert v[j] == Itoa(n)[j - 1];
      assert v[j] in Itoa(n);
    }
  }

  lemma SubjectTokens(env: Envelope)
    ensures Split(SubjectOf(env)) == Split(EventOf(env)) + [VersionOf(env)] + Split(VenueOf(env)) + [InstrumentOf(env)]
  {
    var e, v, n, i := EventOf(env), VersionOf(env), VenueOf(env), InstrumentOf(env);
    PartsAreSolid(env);
    SplitDotFree(v);
    SplitDotFree(i);
    SplitParts(e, v);
    SplitParts(e + "." + v, n);
    SplitParts(e + "." + v + "." + n, i);
  }

  lemma ConcreteParts(a: string, b: string)
    ensures Concrete(a + "." + b) <==> Concrete(a) && Concrete(b)
  {
    var s := a + "." + b;
    assert forall i :: 0 <= i < |a| ==> s[i] == a[i];
    assert forall i :: 0 <= i < |b| ==> s[|a| + 1 + i] == b[i];
    if Concrete(s) {
      forall i | 0 <= i < |b| ensures !BadChar(b[i]) {
        assert !BadChar(s[|a| + 1 + i]);
      }
    }
  }

  lemma SubjectConcrete(env: Envelope)
    ensures Concrete(SubjectOf(env)) <==> Concrete(EventOf(env)) && Concrete(VenueOf(env))
    ensures TrimSpace(SubjectOf(env)) == SubjectOf(env)
  {
    var e, v, n, i := EventOf(env), VersionOf(env), VenueOf(env), InstrumentOf(env);
    PartsAreSolid(env);
    ConcreteParts(e, v);
    ConcreteParts(e + "." + v, n);
    ConcreteParts(e + "." + v + "." + n, i);
    var s := SubjectOf(env);
    assert s[0] == e[0] && s[|s| - 1] == i[|i| - 1];
    SolidIsTrimmed(s);
  }

  lemma SolidNoBlank(a: string)
    requires SolidEnds(a)
    ensures TrimSpace(a) != ""
  {
  }

  /** Splitting the printed subject recovers event, version, venue and instrument exactly when the envelope is printable. */
  lemma SubjectRoundTrip(env: Envelope)
    ensures SplitTaxonomy(SubjectOf(env)) == Taxonomy(EventOf(env), VersionOf(env), VenueOf(env), InstrumentOf(env)) <==>
            Printable(env)
  {
    SubjectTokens(env);
    SubjectConcrete(env);
    PartsAreSolid(env);
    if Printable(env) {
      PrintableIsRead(env);
    } else if SplitTaxonomy(SubjectOf(env)) == Taxonomy(EventOf(env), VersionOf(env), VenueOf(env), InstrumentOf(env)) {
      ReadIsPrintable(env);
    }
  }

  lemma PrintableIsRead(env: Envelope)
    requires Printable(env)
    ensures SplitTaxonomy(SubjectOf(env)) == Taxonomy(EventOf(env), VersionOf(env), VenueOf(env), InstrumentOf(env))
  {
    SubjectConcrete(env);
    PartsAreSolid(env);
    JoinOfSplit(EventOf(env));
    PrintableTokens(env);
    var head, tokens := Split(EventOf(env)), Split(SubjectOf(env));
    assert tokens[..|tokens| - 3] == head;
  }

  lemma PrintableTokens(env: Envelope)
    requires Printable(env)
    ensures Split(SubjectOf(env)) == Split(EventOf(env)) + [VersionOf(env), VenueOf(env), InstrumentOf(env)]
    ensures NoBlank(Split(SubjectOf(env)))
  {
    SubjectTokens(env);
    PartsAreSolid(env);
    SplitDotFree(VenueOf(env));
    SolidNoBlank(VersionOf(env));
    SolidNoBlank(VenueOf(env));
    SolidNoBlank(InstrumentOf(env));
    assert Split(SubjectOf(env)) == Split(EventOf(env)) + [VersionOf(env), VenueOf(env), InstrumentOf(env)];
  }

  lemma ReadIsPrintable(env: Envelope)
    requires SplitTaxonomy(SubjectOf(env)) == Taxonomy(EventOf(env), VersionOf(env), VenueOf(env), InstrumentOf(env))
    ensures Printable(env)
  {
    SubjectTokens(env);
    SubjectConcrete(env);
    var head, tokens := Split(EventOf(env)), Split(SubjectOf(env));
    SplitTokens(SubjectOf(env), |tokens| - 2);
    forall i | 0 <= i < |head| ensures TrimSpace(head[i]) != "" {
      assert head[i] == tokens[i];
    }
  }

  lemma VersionTellsApart(a: Envelope, b: Envelope)
    ensures VersionOf(a) == VersionOf(b) <==> a.version == b.version || (a.version <= 1 && b.version <= 1)
  {
    var m, n := if a.version <= 0 then 1 else a.version, if b.version <= 0 then 1 else b.version;
    ItoaReadsBack(m);
    ItoaReadsBack(n);
    if VersionOf(a) == VersionOf(b) {
      assert Itoa(m) == VersionOf(a)[1..] == Itoa(n);
    }
  }

  /** Printable envelopes share a subject exactly if they agree on event, version, venue and instrument as printed. */
  lemma SubjectTellsApart(a: Envelope, b: Envelope, x: string, y: string)
    requires Printable(a) && Printable(b) && x == SubjectOf(a) && y == SubjectOf(b)
    ensures x == y <==>
            && EventOf(a) == EventOf(b) && VenueOf(a) == VenueOf(b) && InstrumentOf(a) == InstrumentOf(b)
            && (a.version == b.version || (a.version <= 1 && b.version <= 1))
  {
    VersionTellsApart(a, b);
    if x == y {
      SubjectRoundTrip(a);
      SubjectRoundTrip(b);
    }
  }
}

/** Which processor group owns a subject. */
module Shard {
  import opened Subjects
  import opened Text

  newtype uint32 = x: int | 0 <= x < 0x1_0000_0000

  const SEPARATOR: char := '\0'

  /** What ShardKey feeds the hash: venue and instrument with a separator, or the whole subject if it cannot be read. */
  function KeyText(subject: string): string {
    var t := SplitTaxonomy(subject);
    if t.Invalid? then subject else t.venue + [SEPARATOR] + t.instrument
  }

  /** ShardGroup */
  function Group(key: uint32, groups: int): int
    requires groups < 0x1_0000_0000
  {
    if groups <= 1 then 0 else key as int % groups
  }

  /** subjectBelongsToOtherShard, for any 32-bit hash */
  predicate BelongsToOther(hash: string -> uint32, subject: string, groups: int, mine: int)
    requires groups < 0x1_0000_0000
  {
    groups > 1 && Group(hash(KeyText(subject)), groups) != mine
  }

  /** With sharding on, every subject has exactly one owner among the groups. */
  lemma ExactlyOneOwner(hash: string -> uint32, subject: string, groups: int)
    requires 2 <= groups < 0x1_0000_0000
    ensures exists g :: 0 <= g < groups && !BelongsToOther(hash, subject, groups, g)
    ensures forall g, g' :: !BelongsToOther(hash, subject, groups, g) && !BelongsToOther(hash, subject, groups, g') ==> g == g'
    ensures forall g :: !BelongsToOther(hash, subject, groups, g) ==>
              0 <= g < groups && exists q :: hash(KeyText(subject)) as int == q * groups + g
  {
    var h, g := hash(KeyText(subject)), Group(hash(KeyText(subject)), groups);
    assert !BelongsToOther(hash, subject, groups, g);
    assert h as int == (h as int / groups) * groups + g;
  }

  /** The subject has no blanks, no wildcards and no empty token. */
  predicate Readable(env: Envelope) {
    Concrete(SubjectOf(env)) && NoBlank(Split(SubjectOf(env)))
  }

  /** The venue as a reader of the subject sees it: the part after its last dot. */
  function VenueToken(env: Envelope): string {
    var pieces := Split(VenueOf(env));
    pieces[|pieces| - 1]
  }

  lemma ReadBack(env: Envelope)
    ensures var t := SplitTaxonomy(SubjectOf(env));
            if Readable(env) then t.Taxonomy? && t.venue == VenueToken(env) && t.instrument == InstrumentOf(env) else t.Invalid?
  {
    SubjectTokens(env);
    SubjectConcrete(env);
  }

  lemma VenueTokenOfPrintable(env: Envelope)
    requires Printable(env)
    ensures Readable(env) && VenueToken(env) == VenueOf(env)
  {
    SubjectConcrete(env);
    PrintableTokens(env);
    SplitDotFree(VenueOf(env));
  }

  /** Whatever their types and versions, and whatever their venue, readable envelopes of one book go to the same group. */
  lemma SameBookSameOwner(hash: string -> uint32, a: Envelope, b: Envelope, groups: int, mine: int)
    requires groups < 0x1_0000_0000 && Readable(a) && Readable(b)
    requires VenueOf(a) == VenueOf(b) && InstrumentOf(a) == InstrumentOf(b)
    ensures BelongsToOther(hash, SubjectOf(a), groups, mine) <==> BelongsToOther(hash, SubjectOf(b), groups, mine)
  {
    ReadBack(a);
    ReadBack(b);
  }

  lemma NoSeparator(env: Envelope)
    requires SEPARATOR !in EventOf(env) && SEPARATOR !in VenueOf(env)
    ensures SEPARATOR !in SubjectOf(env)
  {
    AlnumMeans(ToUpper(TrimSpace(env.instrument)));
    ItoaDigits(if env.version <= 0 then 1 else env.version);
    assert forall x: char :: x in VersionOf(env) ==> x == 'v' || IsDigit(x);
    assert forall x: char :: x in InstrumentOf(env) ==> IsAlnum(x);
  }

  /** So the separator in a hashed text tells whether the subject could be read. */
  lemma SeparatorTells(env: Envelope, text: string)
    requires SEPARATOR !in EventOf(env) && SEPARATOR !in VenueOf(env) && text == KeyText(SubjectOf(env))
    ensures SEPARATOR in text <==> Readable(env)
    ensures text == if Readable(env) then VenueToken(env) + [SEPARATOR] + InstrumentOf(env) else SubjectOf(env)
  {
    ReadBack(env);
    NoSeparator(env);
    var full := VenueToken(env) + [SEPARATOR] + InstrumentOf(env);
    assert full[|VenueToken(env)|] == SEPARATOR;
  }

  /**
   * For one book the hashed text is the same exactly when both subjects can be read, or are the same subject anyway: an
   * envelope whose type cannot be read is hashed by its whole subject and may end up with another group.
   */
  lemma SameBookSameText(a: Envelope, b: Envelope)
    requires VenueOf(a) == VenueOf(b) && InstrumentOf(a) == InstrumentOf(b)
    requires SEPARATOR !in EventOf(a) && SEPARATOR !in EventOf(b) && SEPARATOR !in VenueOf(a)
    ensures KeyText(SubjectOf(a)) == KeyText(SubjectOf(b)) <==>
            (Readable(a) && Readable(b)) || SubjectOf(a) == SubjectOf(b)
  {
    TellTexts(a, b, KeyText(SubjectOf(a)), KeyText(SubjectOf(b)));
    if SubjectOf(a) == SubjectOf(b) {
      assert KeyText(SubjectOf(a)) == KeyText(SubjectOf(b));
    }
  }

  lemma TellTexts(a: Envelope, b: Envelope, x: string, y: string)
    requires VenueOf(a) == VenueOf(b) && InstrumentOf(a) == InstrumentOf(b)
    requires SEPARATOR !in EventOf(a) && SEPARATOR !in EventOf(b) && SEPARATOR !in VenueOf(a)
    requires x == KeyText(SubjectOf(a)) && y == KeyText(SubjectOf(b))
    ensures Readable(a) && Readable(b) ==> x == y
    ensures !(Readable(a) && Readable(b)) && x == y ==> SubjectOf(a) == SubjectOf(b)
  {
    SeparatorTells(a, x);
    SeparatorTells(b, y);
  }

  lemma {:induction false} TokensAreParts(s: string, i: nat, c: char)
    requires i < |Split(s)| && c in Split(s)[i]
    ensures c in s
  {
    if s != "" {
      if s[0] == '.' {
        if i > 0 { TokensAreParts(s[1..], i - 1, c); }
      } else if i > 0 || c != s[0] {
        TokensAreParts(s[1..], i, c);
      }
    }
  }

  /**
   * The separator keeps venue and instrument apart: the hashed texts of readable envelopes are the same exactly when their
   * instruments and the last parts of their venues are. For printable envelopes that is the whole venue.
   */
  lemma KeyTextTellsBooksApart(a: Envelope, b: Envelope)
    requires Readable(a) && Readable(b) && SEPARATOR !in VenueOf(a) && SEPARATOR !in VenueOf(b)
    ensures KeyText(SubjectOf(a)) == KeyText(SubjectOf(b)) <==>
            VenueToken(a) == VenueToken(b) && InstrumentOf(a) == InstrumentOf(b)
    ensures Printable(a) && Printable(b) ==>
            (KeyText(SubjectOf(a)) == KeyText(SubjectOf(b)) <==> VenueOf(a) == VenueOf(b) && InstrumentOf(a) == InstrumentOf(b))
  {
    ReadBack(a);
    ReadBack(b);
    if KeyText(SubjectOf(a)) == KeyText(SubjectOf(b)) {
      if SEPARATOR in VenueToken(a) { TokensAreParts(VenueOf(a), |Split(VenueOf(a))| - 1, SEPARATOR); }
      if SEPARATOR in VenueToken(b) { TokensAreParts(VenueOf(b), |Split(VenueOf(b))| - 1, SEPARATOR); }
      SplitAtSeparator(SEPARATOR, VenueToken(a), InstrumentOf(a), VenueToken(b), InstrumentOf(b));
    }
    if Printable(a) && Printable(b) {
      VenueTokenOfPrintable(a);
      VenueTokenOfPrintable(b);
    }
  }

  lemma {:induction false} SplitAtSeparator(sep: char, v: string, i: string, v': string, i': string)
    requires v + [sep] + i == v' + [sep] + i' && sep !in v && sep !in v'
    ensures v == v' && i == i'
  {
    var s := v + [sep] + i;
    assert s[0] == (if v == "" then sep else v[0]);
    assert s[0] == (if v' == "" then sep else v'[0]);
    if v != "" && v' != "" {
      assert s[1..] == v[1..] + [sep] + i && s[1..] == v'[1..] + [sep] + i';
      SplitAtSeparator(sep, v[1..], i, v'[1..], i');
      assert v == [v[0]] + v[1..] && v' == [v'[0]] + v'[1..];
    } else {
      assert i == s[1..] && i' == s[1..];
    }
  }
}
