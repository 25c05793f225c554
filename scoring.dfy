/**
 * The keyword risk scorer of the audit pipeline (main.py, `analyze_results`),
 * as functions of the scanned text: normalisation, trigger matching, the
 * category-correlation bonus and the clamped score. `unidecode` and
 * `fuzz.partial_ratio` are library code and enter as the two functions of a
 * `Matcher`, about which nothing is assumed.
 */
module Scoring {
  import opened Strings

  /** The two foreign string functions the scorer calls. */
  datatype Matcher = Matcher(unidecode: string -> string, partialRatio: (string, string) -> int)

  /** The trigger vocabulary: category names with their terms, in dictionary order. */
  type Triggers = seq<(string, seq<string>)>

  const Finance := "FINANSE"
  const Services := "WOJSKO_SLUZBY"

  const SemanticTriggers: Triggers := [
    (Finance, ["uposazenie", "dodatek", "gratyfikacja", "naleznosc", "kwota bazowa",
               "skutki finansowe", "mld zl", "srodki majatkowe", "budzet", "zwiekszenie", "wynagrodzenie"]),
    (Services, ["wojsko", "obrona narodowa", "zolnierz", "weteran", "amw",
                "uzbrojenie", "modernizacja", "fundusz wsparcia", "sluzb specjalnych",
                "cba", "abw", "skw", "sww", "wywiad", "kontrwywiad", "funkcjonariusz"])
  ]

  /** A fuzzy match needs a similarity strictly above this. */
  const FuzzyThreshold := 90
  const RiskPerMatch := 2
  const CorrelationBonus := 10
  const MaxRisk := 10
  const CorrelationAlert := "🚨 KORELACJA (KASA DLA SŁUŻB)"

  // ---------------------------------------------------------------------------
  // Normalisation
  // ---------------------------------------------------------------------------

  /** The characters Python's `\s` matches in a str pattern (Unicode white space). */
  predicate IsSpace(c: char)
  {
    || c == ' ' || '\t' <= c <= '\r' || '\U{1C}' <= c <= '\U{1F}'
    || c == '\U{85}' || c == '\U{A0}' || c == '\U{1680}' || '\U{2000}' <= c <= '\U{200A}'
    || c == '\U{2028}' || c == '\U{2029}' || c == '\U{202F}' || c == '\U{205F}' || c == '\U{3000}'
  }

  /** The characters `[a-z0-9\s]` keeps. */
  predicate Kept(c: char)
  {
    'a' <= c <= 'z' || '0' <= c <= '9' || IsSpace(c)
  }

  predicate AllKept(s: string)
  {
    forall k :: 0 <= k < |s| ==> Kept(s[k])
  }

  /** `re.sub(r'[^a-z0-9\s]', '', s)`: drop every character the class does not keep. */
  function KeepAllowed(s: string): (r: string)
    ensures AllKept(r)
    ensures |r| <= |s|
    ensures forall c :: Kept(c) ==> (c in s <==> c in r)
    ensures AllKept(s) ==> r == s
  {
    if |s| == 0 then ""
    else (if Kept(s[0]) then [s[0]] else []) + KeepAllowed(s[1..])
  }

  /**
   * The filter works character by character and keeps the order: a kept
   * character stays, any other is dropped, and the text of a concatenation
   * is the concatenation of the filtered parts.
   */
  lemma {:induction false} KeepAllowedAppend(a: string, b: string)
    ensures KeepAllowed(a + b) == KeepAllowed(a) + KeepAllowed(b)
    decreases |a|
  {
    if |a| > 0 {
      assert (a + b)[1..] == a[1..] + b;
      KeepAllowedAppend(a[1..], b);
    } else {
      assert a + b == b;
    }
  }

  lemma KeepAllowedChar(c: char)
    ensures KeepAllowed([c]) == if Kept(c) then [c] else []
  {
    assert [c][1..] == [];
  }

  /** The normalisation is idempotent: cleaning clean text changes nothing. */
  lemma KeepAllowedIdempotent(s: string)
    ensures KeepAllowed(KeepAllowed(s)) == KeepAllowed(s)
  {
  }

  /** `clean`: `unidecode(text).lower()` with the disallowed characters removed. */
  function Normalise(mt: Matcher, text: string): string
  {
    KeepAllowed(Lower(mt.unidecode(text)))
  }

  /** `term_clean`: `unidecode(term).lower()` (not filtered). */
  function CleanTerm(mt: Matcher, term: string): string
  {
    Lower(mt.unidecode(term))
  }

  /** The match test for one term: a literal hit or a fuzzy similarity above 90. */
  predicate Hit(mt: Matcher, clean: string, term: string)
  {
    var tc := CleanTerm(mt, term);
    IsSubstring(tc, clean) || mt.partialRatio(tc, clean) > FuzzyThreshold
  }

  // ---------------------------------------------------------------------------
  // Matching and scoring
  // ---------------------------------------------------------------------------

  /** The terms of one category that hit, in list order. */
  function MatchedTerms(mt: Matcher, clean: string, terms: seq<string>): seq<string>
  {
    if |terms| == 0 then []
    else
      var last := terms[|terms| - 1];
      MatchedTerms(mt, clean, terms[..|terms| - 1]) + (if Hit(mt, clean, last) then [last] else [])
  }

  /** `self.vectors` after the nested loops: every hitting term, category by category. */
  function Vectors(mt: Matcher, clean: string, triggers: Triggers): seq<string>
  {
    if |triggers| == 0 then []
    else Vectors(mt, clean, triggers[..|triggers| - 1]) + MatchedTerms(mt, clean, triggers[|triggers| - 1].1)
  }

  /** `found_cats` after the nested loops. */
  function FoundCats(mt: Matcher, clean: string, triggers: Triggers): (r: set<string>)
    ensures Vectors(mt, clean, triggers) == [] ==> r == {}
  {
    if |triggers| == 0 then {}
    else
      var last := triggers[|triggers| - 1];
      FoundCats(mt, clean, triggers[..|triggers| - 1]) + (if MatchedTerms(mt, clean, last.1) != [] then {last.0} else {})
  }

  /** The "wrzutka" rule: both the services and the finance category were found. */
  predicate Correlated(found: set<string>)
  {
    Services in found && Finance in found
  }

  /** `self.risk` after `analyze_results`, starting from 0. */
  function RawRisk(mt: Matcher, clean: string, triggers: Triggers): nat
  {
    RiskPerMatch * |Vectors(mt, clean, triggers)|
      + (if Correlated(FoundCats(mt, clean, triggers)) then CorrelationBonus else 0)
  }

  /** The value `analyze_results` returns for a scanner whose risk started at 0. */
  function Score(mt: Matcher, clean: string, triggers: Triggers): (r: int)
    ensures 0 <= r <= MaxRisk && r % 2 == 0
    ensures Correlated(FoundCats(mt, clean, triggers)) ==> r == MaxRisk
    ensures Vectors(mt, clean, triggers) == [] ==> r == 0
    ensures r < MaxRisk ==> r == RiskPerMatch * |Vectors(mt, clean, triggers)|
    ensures !Correlated(FoundCats(mt, clean, triggers)) && RiskPerMatch * |Vectors(mt, clean, triggers)| < MaxRisk ==>
      r == RiskPerMatch * |Vectors(mt, clean, triggers)|
    ensures RiskPerMatch * |Vectors(mt, clean, triggers)| >= MaxRisk ==> r == MaxRisk
  {
    var raw := RawRisk(mt, clean, triggers);
    if raw < MaxRisk then raw else MaxRisk
  }

  lemma {:induction false} MatchedTermsExact(mt: Matcher, clean: string, terms: seq<string>, x: string)
    ensures x in MatchedTerms(mt, clean, terms) <==> x in terms && Hit(mt, clean, x)
  {
    if |terms| > 0 {
      var init := terms[..|terms| - 1];
      MatchedTermsExact(mt, clean, init, x);
      assert terms == init + [terms[|terms| - 1]];
    }
  }

  /**
   * A term is in `vectors` exactly when it belongs to some category and hits;
   * in particular every term found literally in the clean text is recorded.
   */
  lemma {:induction false} VectorsExact(mt: Matcher, clean: string, triggers: Triggers, x: string)
    ensures x in Vectors(mt, clean, triggers) <==>
      Hit(mt, clean, x) && exists c :: 0 <= c < |triggers| && x in triggers[c].1
  {
    if |triggers| > 0 {
      var n := |triggers| - 1;
      var init := triggers[..n];
      VectorsExact(mt, clean, init, x);
      MatchedTermsExact(mt, clean, triggers[n].1, x);
      if Hit(mt, clean, x) && exists c :: 0 <= c < |triggers| && x in triggers[c].1 {
        var c :| 0 <= c < |triggers| && x in triggers[c].1;
        if c < n {
          assert init[c] == triggers[c];
        }
      }
      if exists c :: 0 <= c < n && x in init[c].1 {
        var c :| 0 <= c < n && x in init[c].1;
        assert triggers[c] == init[c];
      }
    }
  }

  /** A literal occurrence of a term in the clean text always records it. */
  lemma LiteralHitRecorded(mt: Matcher, clean: string, triggers: Triggers, c: nat, t: nat)
    requires c < |triggers| && t < |triggers[c].1|
    requires IsSubstring(CleanTerm(mt, triggers[c].1[t]), clean)
    ensures triggers[c].1[t] in Vectors(mt, clean, triggers)
    ensures triggers[c].0 in FoundCats(mt, clean, triggers)
  {
    VectorsExact(mt, clean, triggers, triggers[c].1[t]);
    FoundCatsExact(mt, clean, triggers, triggers[c].0);
    MatchedTermsExact(mt, clean, triggers[c].1, triggers[c].1[t]);
  }

  /** Some entry of `triggers` named `cat` has a hitting term. */
  predicate CatFound(mt: Matcher, clean: string, triggers: Triggers, cat: string)
  {
    exists c :: 0 <= c < |triggers| && triggers[c].0 == cat && MatchedTerms(mt, clean, triggers[c].1) != []
  }

  lemma CatFoundStep(mt: Matcher, clean: string, triggers: Triggers, cat: string)
    requires |triggers| > 0
    ensures var n := |triggers| - 1;
      CatFound(mt, clean, triggers, cat) <==>
        CatFound(mt, clean, triggers[..n], cat) || (triggers[n].0 == cat && MatchedTerms(mt, clean, triggers[n].1) != [])
  {
    var n := |triggers| - 1;
    var init := triggers[..n];
    if CatFound(mt, clean, triggers, cat) {
      var c :| 0 <= c < |triggers| && triggers[c].0 == cat && MatchedTerms(mt, clean, triggers[c].1) != [];
      if c < n {
        assert init[c] == triggers[c];
      }
    }
    if CatFound(mt, clean, init, cat) {
      var c :| 0 <= c < n && init[c].0 == cat && MatchedTerms(mt, clean, init[c].1) != [];
      assert triggers[c] == init[c];
    }
  }

  /** A category is found exactly when one of its entries has a hitting term. */
  lemma {:induction false} FoundCatsExact(mt: Matcher, clean: string, triggers: Triggers, cat: string)
    ensures cat in FoundCats(mt, clean, triggers) <==> CatFound(mt, clean, triggers, cat)
  {
    if |triggers| > 0 {
      FoundCatsExact(mt, clean, triggers[..|triggers| - 1], cat);
      CatFoundStep(mt, clean, triggers, cat);
    }
  }

  /** Some term of `terms` hits the clean text. */
  predicate AnyHit(mt: Matcher, clean: string, terms: seq<string>)
  {
    exists t :: t in terms && Hit(mt, clean, t)
  }

  /**
   * With the configured vocabulary, the correlation alert fires exactly when
   * a finance term and a services term both hit.
   */
  lemma CorrelationIff(mt: Matcher, clean: string)
    ensures Correlated(FoundCats(mt, clean, SemanticTriggers)) <==>
      AnyHit(mt, clean, SemanticTriggers[0].1) && AnyHit(mt, clean, SemanticTriggers[1].1)
  {
    var tr := SemanticTriggers;
    FoundCatsExact(mt, clean, tr, Finance);
    FoundCatsExact(mt, clean, tr, Services);
    forall c | 0 <= c < 2
      ensures MatchedTerms(mt, clean, tr[c].1) != [] <==> AnyHit(mt, clean, tr[c].1)
    {
      if AnyHit(mt, clean, tr[c].1) {
        var t :| t in tr[c].1 && Hit(mt, clean, t);
        MatchedTermsExact(mt, clean, tr[c].1, t);
      }
      if MatchedTerms(mt, clean, tr[c].1) != [] {
        var t := MatchedTerms(mt, clean, tr[c].1)[0];
        MatchedTermsExact(mt, clean, tr[c].1, t);
      }
    }
  }

  /** When the correlation alert fires the score is the maximum, 10. */
  lemma CorrelationScoresMax(mt: Matcher, clean: string)
    requires AnyHit(mt, clean, SemanticTriggers[0].1) && AnyHit(mt, clean, SemanticTriggers[1].1)
    ensures Score(mt, clean, SemanticTriggers) == MaxRisk
  {
    CorrelationIff(mt, clean);
  }

  /** With no hitting term at all, the score is 0 and no category is found. */
  lemma NoHitScoresZero(mt: Matcher, clean: string, triggers: Triggers)
    requires forall c, t :: 0 <= c < |triggers| && t in triggers[c].1 ==> !Hit(mt, clean, t)
    ensures Vectors(mt, clean, triggers) == [] && FoundCats(mt, clean, triggers) == {}
    ensures Score(mt, clean, triggers) == 0
  {
    if Vectors(mt, clean, triggers) != [] {
      var x := Vectors(mt, clean, triggers)[0];
      VectorsExact(mt, clean, triggers, x);
      assert false;
    }
  }
}
