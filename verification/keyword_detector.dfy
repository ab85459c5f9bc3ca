/**
 * The keyword risk scorer of the webhook bot (`LeakDetector.detect_leaks`).
 *
 * The text is lower-cased; each of six keyword categories adds 20 and its label
 * when at least one of its keywords occurs (the scan of a category stops at the
 * first hit); each danger phrase that occurs adds its own weight and a label of
 * its own. The score is clamped to 100 and the labels are returned as a set.
 *
 * `Assess` is the reference definition; the method `DetectLeaks` walks the
 * tables with the source's nested loops and is proved to agree with it.
 */
module KeywordDetector {
  import opened Common
  import opened Text

  /** A keyword category: the label it reports and the keywords that trigger it. */
  datatype Category = Category(name: string, keywords: seq<string>)

  /** A context phrase and the weight it adds when it occurs. */
  datatype DangerPhrase = DangerPhrase(phrase: string, weight: nat)

  /** What one category contributes to the score. */
  const CategoryWeight: nat := 20

  /** The ceiling of the reported risk score. */
  const MaxRisk: nat := 100

  /** Prefix of the label reported for a danger phrase. */
  const PhraseLabelPrefix: string := "опасная_фраза: "

  /** The keyword table, in the order the source walks it. */
  const Patterns: seq<Category> := [
    Category("пересылка", ["переслал", "forward", "отправил", "поделился"]),
    Category("копирование", ["скопировал", "копирую", "copy", "сохранил текст"]),
    Category("скриншот", ["скрин", "screenshot", "снимок", "заскринил"]),
    Category("утечка", ["слил", "утекло", "слито", "утечка", "просочилось"]),
    Category("секрет", ["секрет", "тайна", "конфиденциально", "не говори никому"]),
    Category("данные", ["пароль", "логин", "карта", "счет", "паспорт", "номер"])
  ]

  /** The danger phrases with their weights, in the order the source walks them. */
  const DangerPhrases: seq<DangerPhrase> := [
    DangerPhrase("покажу всем", 40),
    DangerPhrase("распространил", 35),
    DangerPhrase("разошлю всем", 30),
    DangerPhrase("уже у всех", 30),
    DangerPhrase("в открытом доступе", 25)
  ]

  // ---------------------------------------------------------------------
  // Reference definition
  // ---------------------------------------------------------------------

  /** Some keyword of `c` occurs in the (already lower-cased) text `t`. */
  predicate Hits(c: Category, t: string) {
    exists k :: 0 <= k < |c.keywords| && Contains(t, c.keywords[k])
  }

  /** Labels of the categories of `cats` that `t` hits, in table order, each at most once. */
  function CategoryLabels(cats: seq<Category>, t: string): seq<string>
  {
    if cats == [] then []
    else
      var last := cats[|cats| - 1];
      CategoryLabels(cats[..|cats| - 1], t) + (if Hits(last, t) then [last.name] else [])
  }

  /** The label reported for a danger phrase. */
  function PhraseLabel(p: DangerPhrase): string {
    PhraseLabelPrefix + p.phrase
  }

  /** Labels of the phrases of `ps` that occur in `t`, in table order. */
  function PhraseLabels(ps: seq<DangerPhrase>, t: string): seq<string>
  {
    if ps == [] then []
    else
      var last := ps[|ps| - 1];
      PhraseLabels(ps[..|ps| - 1], t) + (if Contains(t, last.phrase) then [PhraseLabel(last)] else [])
  }

  /** What one phrase adds to the score of `t`. */
  function PhraseWeight(p: DangerPhrase, t: string): nat {
    if Contains(t, p.phrase) then p.weight else 0
  }

  /** Sum of the weights of the phrases of `ps` that occur in `t`. */
  function PhraseScore(ps: seq<DangerPhrase>, t: string): nat
  {
    if ps == [] then 0 else PhraseScore(ps[..|ps| - 1], t) + PhraseWeight(ps[|ps| - 1], t)
  }

  /** The unclamped score of the lower-cased text `t`. */
  function RawScore(t: string): nat {
    CategoryWeight * |CategoryLabels(Patterns, t)| + PhraseScore(DangerPhrases, t)
  }

  /** Every label `t` earns, categories first, then phrases. */
  function Labels(t: string): seq<string> {
    CategoryLabels(Patterns, t) + PhraseLabels(DangerPhrases, t)
  }

  /** The verdict on a message text, before the labels are turned into a set. */
  datatype Assessment = Assessment(hasLeak: bool, riskScore: int, labels: seq<string>)

  /** Reference verdict on `text`: all matching is done on its lower-cased form. */
  function Assess(text: string): Assessment {
    var t := Lower(text);
    Assessment(|Labels(t)| > 0, Min(MaxRisk, RawScore(t)), Labels(t))
  }

  // ---------------------------------------------------------------------
  // The detector as the source runs it
  // ---------------------------------------------------------------------

  /** The dictionary `detect_leaks` returns. `timestamp` is the caller's clock reading. */
  datatype LeakReport = LeakReport(hasLeak: bool, riskScore: int, leakTypes: seq<string>, timestamp: string)

  /** No element occurs twice. */
  predicate NoDuplicates<T(==)>(s: seq<T>) {
    forall i, j :: 0 <= i < j < |s| ==> s[i] != s[j]
  }

  /** `detect_leaks(text)`: nested scans of the keyword and phrase tables. */
  method DetectLeaks(text: string, now: string) returns (r: LeakReport)
    ensures r.hasLeak == Assess(text).hasLeak
    ensures r.riskScore == Assess(text).riskScore
    ensures 0 <= r.riskScore <= MaxRisk
    ensures NoDuplicates(r.leakTypes)
    ensures forall l :: l in r.leakTypes <==> l in Assess(text).labels
    ensures r.timestamp == now
  {
    var textLower := Lower(text);
    var leaks, riskScore := ScanCategories(Patterns, textLower);
    var phraseLeaks, phraseScore := ScanPhrases(DangerPhrases, textLower);
    leaks := leaks + phraseLeaks;
    riskScore := riskScore + phraseScore;
    var unique := Deduplicate(leaks);
    r := LeakReport(|leaks| > 0, Min(MaxRisk, riskScore), unique, now);
  }

  /** The first loop of `detect_leaks`: for each category, the first keyword found in
      `t` adds the category's name and 20, and the `break` stops the keyword scan. */
  method ScanCategories(cats: seq<Category>, t: string) returns (leaks: seq<string>, riskScore: nat)
    ensures leaks == CategoryLabels(cats, t)
    ensures riskScore == CategoryWeight * |leaks|
  {
    leaks, riskScore := [], 0;
    var i := 0;
    while i < |cats|
      invariant 0 <= i <= |cats|
      invariant leaks == CategoryLabels(cats[..i], t)
      invariant riskScore == CategoryWeight * |leaks|
    {
      var category := cats[i];
      var j := 0;
      while j < |category.keywords|
        invariant 0 <= j <= |category.keywords|
        invariant forall k :: 0 <= k < j ==> !Contains(t, category.keywords[k])
        invariant leaks == CategoryLabels(cats[..i], t)
        invariant riskScore == CategoryWeight * |leaks|
      {
        if Contains(t, category.keywords[j]) {
          leaks := leaks + [category.name];
          riskScore := riskScore + CategoryWeight;
          break;
        }
        j := j + 1;
      }
      assert cats[..i + 1][..i] == cats[..i];
      i := i + 1;
    }
    assert cats[..i] == cats;
  }

  /** The second loop of `detect_leaks`: each phrase found in `t` adds its weight and its label. */
  method ScanPhrases(ps: seq<DangerPhrase>, t: string) returns (leaks: seq<string>, riskScore: nat)
    ensures leaks == PhraseLabels(ps, t)
    ensures riskScore == PhraseScore(ps, t)
  {
    leaks, riskScore := [], 0;
    var p := 0;
    while p < |ps|
      invariant 0 <= p <= |ps|
      invariant leaks == PhraseLabels(ps[..p], t)
      invariant riskScore == PhraseScore(ps[..p], t)
    {
      var phrase := ps[p];
      if Contains(t, phrase.phrase) {
        riskScore := riskScore + phrase.weight;
        leaks := leaks + [PhraseLabel(phrase)];
      }
      assert ps[..p + 1][..p] == ps[..p];
      p := p + 1;
    }
    assert ps[..p] == ps;
  }

  /** `list(set(xs))`: the distinct elements of `xs`. Python leaves their order unspecified;
      this keeps first occurrences. */
  method Deduplicate<T(==)>(xs: seq<T>) returns (unique: seq<T>)
    ensures NoDuplicates(unique)
    ensures forall x :: x in unique <==> x in xs
    ensures |unique| <= |xs|
  {
    unique := [];
    var k := 0;
    while k < |xs|
      invariant 0 <= k <= |xs|
      invariant NoDuplicates(unique)
      invariant forall x :: x in unique <==> x in xs[..k]
      invariant |unique| <= k
    {
      if xs[k] !in unique {
        unique := unique + [xs[k]];
      }
      assert xs[..k + 1] == xs[..k] + [xs[k]];
      k := k + 1;
    }
    assert xs[..k] == xs;
  }

  // ---------------------------------------------------------------------
  // Properties of the reference definition
  // ---------------------------------------------------------------------

  /** Matching ignores case: a text and its lower-cased form get the same verdict. */
  lemma AssessIgnoresCase(text: string)
    ensures Assess(Lower(text)) == Assess(text)
  {
    LowerIdempotent(text);
  }

  lemma {:induction false} CategoryLabelsAppend(a: seq<Category>, b: seq<Category>, t: string)
    ensures CategoryLabels(a + b, t) == CategoryLabels(a, t) + CategoryLabels(b, t)
    decreases |b|
  {
    if b == [] {
      assert a + b == a;
    } else {
      var b', last := b[..|b| - 1], b[|b| - 1];
      assert (a + b)[..|a + b| - 1] == a + b';
      assert (a + b)[|a + b| - 1] == last;
      var tail := if Hits(last, t) then [last.name] else [];
      CategoryLabelsAppend(a, b', t);
      calc {
        CategoryLabels(a + b, t);
        CategoryLabels(a + b', t) + tail;
        CategoryLabels(a, t) + CategoryLabels(b', t) + tail;
        CategoryLabels(a, t) + CategoryLabels(b, t);
      }
    }
  }

  lemma {:induction false} PhraseScoreAppend(a: seq<DangerPhrase>, b: seq<DangerPhrase>, t: string)
    ensures PhraseScore(a + b, t) == PhraseScore(a, t) + PhraseScore(b, t)
    decreases |b|
  {
    if b == [] {
      assert a + b == a;
    } else {
      var b', last := b[..|b| - 1], b[|b| - 1];
      assert (a + b)[..|a + b| - 1] == a + b';
      assert (a + b)[|a + b| - 1] == last;
      PhraseScoreAppend(a, b', t);
    }
  }

  /** A category's part of the score is 20 exactly when one of its keywords occurs, and
      at most 20 however many of its keywords occur: removing category `i` from the table
      lowers the category count by one if it hits and leaves it alone otherwise. */
  lemma CategoryContribution(cats: seq<Category>, i: int, t: string)
    requires 0 <= i < |cats|
    ensures |CategoryLabels(cats, t)| == |CategoryLabels(cats[..i] + cats[i + 1..], t)| + (if Hits(cats[i], t) then 1 else 0)
  {
    assert cats == cats[..i] + [cats[i]] + cats[i + 1..];
    CategoryLabelsAppend(cats[..i] + [cats[i]], cats[i + 1..], t);
    CategoryLabelsAppend(cats[..i], [cats[i]], t);
    CategoryLabelsAppend(cats[..i], cats[i + 1..], t);
    assert [cats[i]][..0] == [];
  }

  /** Each danger phrase adds its own weight, independently of the others: removing
      phrase `i` from the table lowers the phrase score by exactly that phrase's share. */
  lemma PhraseContribution(ps: seq<DangerPhrase>, i: int, t: string)
    requires 0 <= i < |ps|
    ensures PhraseScore(ps, t) == PhraseScore(ps[..i] + ps[i + 1..], t) + PhraseWeight(ps[i], t)
  {
    assert ps == ps[..i] + [ps[i]] + ps[i + 1..];
    PhraseScoreAppend(ps[..i] + [ps[i]], ps[i + 1..], t);
    PhraseScoreAppend(ps[..i], [ps[i]], t);
    PhraseScoreAppend(ps[..i], ps[i + 1..], t);
    assert [ps[i]][..0] == [];
  }

  /** A category label is reported exactly when the category hits. */
  lemma {:induction false} CategoryLabelsExact(cats: seq<Category>, t: string)
    ensures |CategoryLabels(cats, t)| <= |cats|
    ensures forall l :: l in CategoryLabels(cats, t) <==> exists c :: c in cats && c.name == l && Hits(c, t)
  {
    if cats != [] {
      var rest := cats[..|cats| - 1];
      CategoryLabelsExact(rest, t);
      assert cats == rest + [cats[|cats| - 1]];
    }
  }

  /** A phrase label is reported exactly when the phrase occurs. */
  lemma {:induction false} PhraseLabelsExact(ps: seq<DangerPhrase>, t: string)
    ensures |PhraseLabels(ps, t)| <= |ps|
    ensures forall l :: l in PhraseLabels(ps, t) <==> exists p :: p in ps && PhraseLabel(p) == l && Contains(t, p.phrase)
  {
    if ps != [] {
      var rest := ps[..|ps| - 1];
      PhraseLabelsExact(rest, t);
      assert ps == rest + [ps[|ps| - 1]];
    }
  }

  /** `has_leak` is true exactly when some category or danger phrase matched the lower-cased text. */
  lemma HasLeakIffMatch(text: string)
    ensures Assess(text).hasLeak <==>
      (exists c :: c in Patterns && Hits(c, Lower(text))) || (exists p :: p in DangerPhrases && Contains(Lower(text), p.phrase))
  {
    var t := Lower(text);
    CategoryLabelsExact(Patterns, t);
    PhraseLabelsExact(DangerPhrases, t);
    if exists c :: c in Patterns && Hits(c, t) {
      var c :| c in Patterns && Hits(c, t);
      assert c.name in CategoryLabels(Patterns, t);
    }
    if exists p :: p in DangerPhrases && Contains(t, p.phrase) {
      var p :| p in DangerPhrases && Contains(t, p.phrase);
      assert PhraseLabel(p) in PhraseLabels(DangerPhrases, t);
    }
    if |Labels(t)| > 0 {
      var l := Labels(t)[0];
      assert l in CategoryLabels(Patterns, t) || l in PhraseLabels(DangerPhrases, t);
    }
  }

  /** With positive weights, the phrase score is zero exactly when no phrase label is reported. */
  lemma {:induction false} PhraseScoreZeroIffNoLabel(ps: seq<DangerPhrase>, t: string)
    requires forall k :: 0 <= k < |ps| ==> ps[k].weight > 0
    ensures PhraseScore(ps, t) == 0 <==> PhraseLabels(ps, t) == []
  {
    if ps != [] {
      PhraseScoreZeroIffNoLabel(ps[..|ps| - 1], t);
    }
  }

  /** A leak is reported exactly when the risk score is positive. */
  lemma HasLeakIffPositiveScore(text: string)
    ensures Assess(text).hasLeak <==> Assess(text).riskScore > 0
  {
    PhraseScoreZeroIffNoLabel(DangerPhrases, Lower(text));
  }

  lemma {:induction false} NoHitNoCategoryLabel(cats: seq<Category>, t: string)
    requires forall c :: c in cats ==> !Hits(c, t)
    ensures CategoryLabels(cats, t) == []
  {
    if cats != [] {
      NoHitNoCategoryLabel(cats[..|cats| - 1], t);
    }
  }

  lemma {:induction false} NoPhraseNoPhraseLabel(ps: seq<DangerPhrase>, t: string)
    requires forall p :: p in ps ==> !Contains(t, p.phrase)
    ensures PhraseLabels(ps, t) == []
  {
    if ps != [] {
      NoPhraseNoPhraseLabel(ps[..|ps| - 1], t);
    }
  }

  /** No keyword and no phrase is empty. */
  lemma TablesHaveNoEmptyEntry()
    ensures forall c, k :: c in Patterns && 0 <= k < |c.keywords| ==> c.keywords[k] != []
    ensures forall p :: p in DangerPhrases ==> p.phrase != []
  {
  }

  /** The empty text reports no leak and scores 0. */
  lemma EmptyTextIsClean()
    ensures Assess("") == Assessment(false, 0, [])
  {
    assert Lower("") == "";
    TablesHaveNoEmptyEntry();
    forall c | c in Patterns ensures !Hits(c, "") {
      forall k | 0 <= k < |c.keywords| ensures !Contains("", c.keywords[k]) {
        NothingInEmpty(c.keywords[k]);
      }
    }
    forall p | p in DangerPhrases ensures !Contains("", p.phrase) {
      NothingInEmpty(p.phrase);
    }
    NoHitNoCategoryLabel(Patterns, "");
    NoPhraseNoPhraseLabel(DangerPhrases, "");
    PhraseScoreZeroIffNoLabel(DangerPhrases, "");
  }
}
