/** The classification helpers of the risk dashboard
    (components/RiskDashboard.tsx) and the per-risk chart cells and cards it
    renders. Colours and icons are tags; the theme classes are the source's
    own strings. */
module RiskDashboard {
  import opened Types

  /** The four levels the dashboard knows. */
  predicate IsKnownLevel(level: string)
  {
    level == "Low" || level == "Moderate" || level == "High" || level == "Critical"
  }

  // ---------------------------------------------------------------------------
  // getLevelColor

  datatype LevelColor = Emerald | Amber | Orange | Red | Slate

  /** The colour each tag stands for. */
  function Hex(c: LevelColor): string
  {
    match c
    case Emerald => "#10b981"
    case Amber => "#f59e0b"
    case Orange => "#f97316"
    case Red => "#ef4444"
    case Slate => "#64748b"
  }

  /** getLevelColor, components/RiskDashboard.tsx:23-31: the slate default
      exactly for strings that are not a known level. */
  function GetLevelColor(level: string): (c: LevelColor)
    ensures c == Slate <==> !IsKnownLevel(level)
  {
    if level == "Low" then Emerald
    else if level == "Moderate" then Amber
    else if level == "High" then Orange
    else if level == "Critical" then Red
    else Slate
  }

  /** The four known levels get four different colours, each with its own
      hex code. */
  lemma LevelColorsDistinct(a: string, b: string)
    requires IsKnownLevel(a) && IsKnownLevel(b) && a != b
    ensures GetLevelColor(a) != GetLevelColor(b)
    ensures Hex(GetLevelColor(a)) != Hex(GetLevelColor(b))
  {
  }

  // ---------------------------------------------------------------------------
  // getLevelTheme

  datatype LevelIcon = CheckCircle | Zap | AlertTriangle | Flame | ShieldAlert

  datatype Theme = Theme(bg: string, border: string, text: string, progressBg: string, icon: LevelIcon)

  const SlateTheme := Theme("bg-slate-50", "border-slate-100", "text-slate-700", "bg-slate-200", ShieldAlert)

  /** getLevelTheme, components/RiskDashboard.tsx:42-85: the slate theme
      exactly for strings that are not a known level. */
  function GetLevelTheme(level: string): (t: Theme)
    ensures t == SlateTheme <==> !IsKnownLevel(level)
  {
    if level == "Low" then
      Theme("bg-emerald-50", "border-emerald-100", "text-emerald-700", "bg-emerald-200", CheckCircle)
    else if level == "Moderate" then
      Theme("bg-amber-50", "border-amber-100", "text-amber-700", "bg-amber-200", Zap)
    else if level == "High" then
      Theme("bg-orange-50", "border-orange-100", "text-orange-700", "bg-orange-200", AlertTriangle)
    else if level == "Critical" then
      Theme("bg-red-50", "border-red-200", "text-red-700", "bg-red-200", Flame)
    else SlateTheme
  }

  /** The four known levels get four different themes, with different icons. */
  lemma LevelThemesDistinct(a: string, b: string)
    requires IsKnownLevel(a) && IsKnownLevel(b) && a != b
    ensures GetLevelTheme(a) != GetLevelTheme(b)
    ensures GetLevelTheme(a).icon != GetLevelTheme(b).icon
  {
  }

  /** The colour and the theme classify levels alike: two levels get the
      same colour exactly when they get the same theme, and both fall back
      to slate on the same strings. */
  lemma ColorAndThemeAgree(a: string, b: string)
    ensures GetLevelColor(a) == Slate <==> GetLevelTheme(a) == SlateTheme
    ensures GetLevelColor(a) == GetLevelColor(b) <==> GetLevelTheme(a) == GetLevelTheme(b)
  {
  }

  // ---------------------------------------------------------------------------
  // getDiseaseIcon

  datatype DiseaseIcon = HeartPulse | Droplets | Activity | Stethoscope | Info

  /** `toLowerCase` on one character (ASCII letters only). */
  function LowerChar(c: char): char
  {
    if 'A' <= c <= 'Z' then (c as int + 32) as char else c
  }

  /** `toLowerCase` (ASCII letters only): no upper-case letter is left. */
  function ToLower(s: string): (r: string)
    ensures |r| == |s|
    ensures forall i :: 0 <= i < |r| ==> !('A' <= r[i] <= 'Z')
  {
    if s == [] then [] else [LowerChar(s[0])] + ToLower(s[1..])
  }

  /** `s.includes(sub)`: `sub` occurs at some position of `s`. */
  predicate Contains(s: string, sub: string): (r: bool)
    ensures r ==> |sub| <= |s|
    ensures sub == [] ==> r
  {
    if |sub| > |s| then false
    else s[..|sub|] == sub || Contains(s[1..], sub)
  }

  /** `sub` occurs in `s` starting at index `i`. */
  predicate OccursAt(s: string, sub: string, i: nat)
  {
    i + |sub| <= |s| && s[i..i + |sub|] == sub
  }

  /** `Contains` is `includes`: it holds exactly when `sub` occurs at some
      index of `s`. */
  lemma {:induction false} ContainsIffOccurs(s: string, sub: string)
    ensures Contains(s, sub) <==> exists i: nat :: OccursAt(s, sub, i)
  {
    if |sub| <= |s| {
      if s[..|sub|] == sub {
        assert OccursAt(s, sub, 0);
      } else {
        ContainsIffOccurs(s[1..], sub);
        if Contains(s[1..], sub) {
          var i: nat :| OccursAt(s[1..], sub, i);
          assert s[i + 1..i + 1 + |sub|] == s[1..][i..i + |sub|];
          assert OccursAt(s, sub, i + 1);
        }
        if exists i: nat :: OccursAt(s, sub, i) {
          var i: nat :| OccursAt(s, sub, i);
          assert i != 0;
          assert s[1..][i - 1..i - 1 + |sub|] == s[i..i + |sub|];
          assert OccursAt(s[1..], sub, i - 1);
        }
      }
    }
  }

  /** Lower-casing works character by character. */
  lemma {:induction false} ToLowerAt(s: string, i: nat)
    requires i < |s|
    ensures ToLower(s)[i] == LowerChar(s[i])
  {
    if i > 0 {
      ToLowerAt(s[1..], i - 1);
    }
  }

  /** getDiseaseIcon, components/RiskDashboard.tsx:33-40. */
  function GetDiseaseIcon(disease: string): (icon: DiseaseIcon)
    ensures icon == HeartPulse <==>
      Contains(ToLower(disease), "heart") || Contains(ToLower(disease), "cardio")
  {
    var d := ToLower(disease);
    if Contains(d, "heart") || Contains(d, "cardio") then HeartPulse
    else if Contains(d, "diabetes") then Droplets
    else if Contains(d, "hypertension") || Contains(d, "blood pressure") then Activity
    else if Contains(d, "ckd") || Contains(d, "kidney") then Stethoscope
    else Info
  }

  /** The classifier as a table, in priority order: a name gets the icon of
      the first row one of whose keywords it contains, and Info when none. */
  const IconRules: seq<(seq<string>, DiseaseIcon)> := [
    (["heart", "cardio"], HeartPulse),
    (["diabetes"], Droplets),
    (["hypertension", "blood pressure"], Activity),
    (["ckd", "kidney"], Stethoscope)
  ]

  predicate MatchesAny(d: string, keywords: seq<string>)
  {
    keywords != [] && (Contains(d, keywords[0]) || MatchesAny(d, keywords[1..]))
  }

  function FirstMatch(rules: seq<(seq<string>, DiseaseIcon)>, d: string): DiseaseIcon
  {
    if rules == [] then Info
    else if MatchesAny(d, rules[0].0) then rules[0].1
    else FirstMatch(rules[1..], d)
  }

  /** getDiseaseIcon is the first matching row of the table. */
  lemma IconIsFirstMatchingRule(disease: string)
    ensures GetDiseaseIcon(disease) == FirstMatch(IconRules, ToLower(disease))
  {
    var d := ToLower(disease);
    var rules := IconRules;
    MatchesTwo(d, "heart", "cardio");
    MatchesOne(d, "diabetes");
    MatchesTwo(d, "hypertension", "blood pressure");
    MatchesTwo(d, "ckd", "kidney");
    var r1, r2, r3 := rules[1..], rules[1..][1..], rules[1..][1..][1..];
    assert r1[0] == rules[1] && r2[0] == rules[2] && r3[0] == rules[3] && r3[1..] == [];
    assert FirstMatch(r3, d) == if Contains(d, "ckd") || Contains(d, "kidney") then Stethoscope else Info;
    assert FirstMatch(r2, d) ==
      if Contains(d, "hypertension") || Contains(d, "blood pressure") then Activity else FirstMatch(r3, d);
    assert FirstMatch(r1, d) == if Contains(d, "diabetes") then Droplets else FirstMatch(r2, d);
    assert FirstMatch(rules, d) ==
      if Contains(d, "heart") || Contains(d, "cardio") then HeartPulse else FirstMatch(r1, d);
  }

  lemma MatchesOne(d: string, a: string)
    ensures MatchesAny(d, [a]) == Contains(d, a)
  {
    assert [a][1..] == [];
  }

  lemma MatchesTwo(d: string, a: string, b: string)
    ensures MatchesAny(d, [a, b]) == (Contains(d, a) || Contains(d, b))
  {
    assert [a, b][1..] == [b];
    MatchesOne(d, b);
  }

  /** A name gets Info exactly when it contains none of the keywords. */
  lemma InfoIffNoKeyword(disease: string)
    ensures GetDiseaseIcon(disease) == Info <==>
      var d := ToLower(disease);
      && !Contains(d, "heart") && !Contains(d, "cardio") && !Contains(d, "diabetes")
      && !Contains(d, "hypertension") && !Contains(d, "blood pressure")
      && !Contains(d, "ckd") && !Contains(d, "kidney")
  {
  }

  lemma {:induction false} ToLowerIdempotent(s: string)
    ensures ToLower(ToLower(s)) == ToLower(s)
  {
    if s != [] {
      ToLowerIdempotent(s[1..]);
      assert ToLower(s)[1..] == ToLower(s[1..]);
    }
  }

  /** The icon depends only on the lower-cased name. */
  lemma DiseaseIconCaseInsensitive(a: string, b: string)
    requires ToLower(a) == ToLower(b)
    ensures GetDiseaseIcon(a) == GetDiseaseIcon(b)
    ensures GetDiseaseIcon(a) == GetDiseaseIcon(ToLower(a))
  {
    ToLowerIdempotent(a);
  }

  /** "Cardio-Diabetes" mentions both cardio and diabetes, and the earlier
      rule wins: it gets the heart icon. The name is a parameter fixed by the
      precondition because `ToLower` applied to a literal unrolls badly. */
  lemma CardioDiabetesExample(name: string)
    requires name == "Cardio-Diabetes"
    ensures Contains(ToLower(name), "cardio") && Contains(ToLower(name), "diabetes")
    ensures GetDiseaseIcon(name) == HeartPulse
  {
    var d := ToLower(name);
    forall i | 0 <= i < 15 ensures d[i] == "cardio-diabetes"[i] {
      ToLowerAt(name, i);
    }
    assert d[..6] == "cardio";
    PrefixContains(d, "cardio");
    assert d[7..][..8] == "diabetes";
    PrefixContains(d[7..], "diabetes");
    ContainsInSuffix(d, "diabetes", 7);
  }

  /** What a suffix contains, the whole string contains. */
  lemma {:induction false} ContainsInSuffix(s: string, sub: string, k: nat)
    requires k <= |s| && Contains(s[k..], sub)
    ensures Contains(s, sub)
  {
    if k > 0 {
      assert s[1..][k - 1..] == s[k..];
      ContainsInSuffix(s[1..], sub, k - 1);
    }
  }

  /** A string contains each of its prefixes. */
  lemma PrefixContains(s: string, prefix: string)
    requires |prefix| <= |s| && s[..|prefix|] == prefix
    ensures Contains(s, prefix)
  {
  }

  // ---------------------------------------------------------------------------
  // One chart cell and one card per risk

  /** What a risk card shows; `score` is the unrounded risk score. */
  datatype Card = Card(
    theme: Theme,
    diseaseIcon: DiseaseIcon,
    disease: string,
    level: string,
    score: real,
    barColor: LevelColor,
    reasoning: string)

  /** The card of one risk, components/RiskDashboard.tsx:127-168. */
  function CardOf(risk: DiseaseRisk): (card: Card)
    ensures card.barColor == Slate <==> card.theme == SlateTheme
  {
    Card(GetLevelTheme(risk.riskLevel), GetDiseaseIcon(risk.disease), risk.disease,
         risk.riskLevel, risk.riskScore, GetLevelColor(risk.riskLevel), risk.reasoning)
  }

  /** The bar chart's cells, components/RiskDashboard.tsx:117-119: one per
      risk, in order, coloured by that risk's level. */
  function ChartCells(risks: seq<DiseaseRisk>): (cells: seq<LevelColor>)
    ensures |cells| == |risks|
    ensures forall i :: 0 <= i < |risks| ==> cells[i] == GetLevelColor(risks[i].riskLevel)
  {
    if risks == [] then [] else [GetLevelColor(risks[0].riskLevel)] + ChartCells(risks[1..])
  }

  /** The cards, components/RiskDashboard.tsx:127-128: one per risk, in
      order, themed by that risk's level. */
  function RiskCards(risks: seq<DiseaseRisk>): (cards: seq<Card>)
    ensures |cards| == |risks|
    ensures forall i :: 0 <= i < |risks| ==> cards[i] == CardOf(risks[i])
  {
    if risks == [] then [] else [CardOf(risks[0])] + RiskCards(risks[1..])
  }

  /** Card i's bar has the colour of chart cell i, and its theme is the
      slate one exactly when that cell is slate. */
  lemma CardsMatchCells(risks: seq<DiseaseRisk>)
    ensures |RiskCards(risks)| == |ChartCells(risks)|
    ensures forall i :: 0 <= i < |risks| ==>
      && RiskCards(risks)[i].barColor == ChartCells(risks)[i]
      && (RiskCards(risks)[i].theme == SlateTheme <==> ChartCells(risks)[i] == Slate)
  {
  }

  /** Rendering a concatenation renders each part in turn. */
  lemma ChartCellsConcat(a: seq<DiseaseRisk>, b: seq<DiseaseRisk>)
    ensures ChartCells(a + b) == ChartCells(a) + ChartCells(b)
    ensures RiskCards(a + b) == RiskCards(a) + RiskCards(b)
  {
    var cells, cards := ChartCells(a + b), RiskCards(a + b);
    forall i | 0 <= i < |a + b|
      ensures cells[i] == (ChartCells(a) + ChartCells(b))[i]
      ensures cards[i] == (RiskCards(a) + RiskCards(b))[i]
    {
      if i >= |a| {
        assert (a + b)[i] == b[i - |a|];
      }
    }
  }
}
