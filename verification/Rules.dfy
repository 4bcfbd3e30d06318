/** The closed rule set of a monitor, evaluated on one item against its previous version. */
module Rules {
  import opened Order
  import opened Observation

  datatype Kind = NewItem | FieldChanged | NumericThreshold | StatusEquals | KeywordMatch

  datatype Operator = Lt | Lte | Eq | Gte | Gt

  datatype Rule = Rule(kind: Kind, field: Option<string>, operator: Option<Operator>, value: Scalar, keywords: seq<string>)

  datatype Match = Match(kind: Kind, field: Option<string>, previous: Scalar, current: Scalar)

  /** `isinstance(value, int | float)` without bool. */
  predicate IsNumber(v: Scalar)
  {
    v.Int? || v.Float?
  }

  /** Python's `x < y` on numbers; NaN is below nothing and nothing is below it. */
  predicate NumberLess(x: Real, y: Real)
  {
    match (x, y)
    case (NaN, _) => false
    case (_, NaN) => false
    case (Finite(a), Finite(b)) => a < b
    case (MinusInfinity, _) => y != MinusInfinity
    case (_, PlusInfinity) => x != PlusInfinity
    case _ => false
  }

  predicate NumberEqual(x: Real, y: Real)
  {
    x == y && !x.NaN?
  }

  predicate Satisfies(x: Real, operator: Option<Operator>, threshold: Real)
  {
    match operator
    case None => false
    case Some(Lt) => NumberLess(x, threshold)
    case Some(Lte) => NumberLess(x, threshold) || NumberEqual(x, threshold)
    case Some(Eq) => NumberEqual(x, threshold)
    case Some(Gte) => NumberLess(threshold, x) || NumberEqual(x, threshold)
    case Some(Gt) => NumberLess(threshold, x)
  }

  predicate Crossed(previous: Scalar, current: Scalar, operator: Option<Operator>, threshold: Scalar)
  {
    && IsNumber(current) && IsNumber(threshold)
    && Satisfies(Numeric(current).value, operator, Numeric(threshold).value)
    && (previous.Absent? ||
        (IsNumber(previous) && !Satisfies(Numeric(previous).value, operator, Numeric(threshold).value)))
  }

  predicate ContainsAt(text: string, part: string, i: nat)
  {
    i + |part| <= |text| && text[i..i + |part|] == part
  }

  predicate Contains(part: string, text: string)
  {
    exists i :: 0 <= i <= |text| && ContainsAt(text, part, i)
  }

  /** Unicode case folding. */
  type Fold = string -> string

  predicate AnyKeyword(keywords: seq<string>, text: string, fold: Fold)
  {
    exists i :: 0 <= i < |keywords| && Contains(fold(keywords[i]), text)
  }

  predicate NewKeyword(previous: Scalar, current: Scalar, keywords: seq<string>, fold: Fold)
  {
    && current.Str?
    && AnyKeyword(keywords, fold(current.s), fold)
    && !AnyKeyword(keywords, if previous.Str? then fold(previous.s) else "", fold)
  }

  /** The value of a rule's field; a rule without one, or with an empty name, reads None. */
  function FieldValue(item: Option<Item>, field: Option<string>): Scalar
  {
    if item.Some? && field.Some? && field.value != "" then Get(item.value.fields, field.value) else Absent
  }

  function MatchOf(rule: Rule, previous: Option<Item>, current: Item, isNew: bool, fold: Fold): Option<Match>
  {
    var before, now := FieldValue(previous, rule.field), FieldValue(Some(current), rule.field);
    if rule.kind == NewItem then
      if isNew then Some(Match(NewItem, None, Absent, Absent)) else None
    else if || (rule.kind == FieldChanged && !PyEqual(before, now))
            || (rule.kind == NumericThreshold && Crossed(before, now, rule.operator, rule.value))
            || (rule.kind == StatusEquals && !PyEqual(before, rule.value) && PyEqual(now, rule.value))
            || (rule.kind == KeywordMatch && NewKeyword(before, now, rule.keywords, fold)) then
      Some(Match(rule.kind, rule.field, before, now))
    else None
  }

  /** The matches of all rules, in rule order. */
  function Matches(rules: seq<Rule>, previous: Option<Item>, current: Item, isNew: bool, fold: Fold): seq<Match>
  {
    if rules == [] then []
    else
      var n := |rules| - 1;
      Matches(rules[..n], previous, current, isNew, fold) +
      match MatchOf(rules[n], previous, current, isNew, fold) case None => [] case Some(m) => [m]
  }

  method EvaluateRules(rules: seq<Rule>, previous: Option<Item>, current: Item, isNew: bool, fold: Fold)
    returns (matches: seq<Match>)
    ensures matches == Matches(rules, previous, current, isNew, fold)
  {
    hide PyEqual, Crossed, NewKeyword, FieldValue;
    matches := [];
    for i := 0 to |rules|
      invariant matches == Matches(rules[..i], previous, current, isNew, fold)
    {
      assert rules[..i + 1][..i] == rules[..i];
      var rule := rules[i];
      var before, now := FieldValue(previous, rule.field), FieldValue(Some(current), rule.field);
      if rule.kind == NewItem {
        if isNew {
          matches := matches + [Match(NewItem, None, Absent, Absent)];
        }
        continue;
      }
      if || (rule.kind == FieldChanged && !PyEqual(before, now))
         || (rule.kind == NumericThreshold && Crossed(before, now, rule.operator, rule.value))
         || (rule.kind == StatusEquals && !PyEqual(before, rule.value) && PyEqual(now, rule.value))
         || (rule.kind == KeywordMatch && NewKeyword(before, now, rule.keywords, fold)) {
        matches := matches + [Match(rule.kind, rule.field, before, now)];
      }
    }
    assert rules[..|rules|] == rules;
  }

  // ---------- a rule that sees no change is silent ----------

  lemma EqualsAgree(a: Scalar, b: Scalar, v: Scalar)
    requires PyEqual(a, b)
    ensures PyEqual(a, v) == PyEqual(b, v)
  {
  }

  /** Equal values never cross a threshold, whether they are NaN, infinite, or a bool that
      equals a number. */
  lemma EqualDoesNotCross(a: Scalar, b: Scalar, operator: Option<Operator>, threshold: Scalar)
    requires PyEqual(a, b)
    ensures !Crossed(a, b, operator, threshold)
  {
    if IsNumber(a) && IsNumber(b) {
      assert Numeric(a) == Numeric(b);
    }
  }

  /** No rule kind matches an item that is not new and whose every field equals, as Python
      compares, the previous one. */
  lemma {:induction false} UnchangedIsSilent(rules: seq<Rule>, previous: Item, current: Item, fold: Fold)
    requires forall key :: PyEqual(Get(previous.fields, key), Get(current.fields, key))
    ensures Matches(rules, Some(previous), current, false, fold) == []
  {
    hide PyEqual, Crossed, NewKeyword;
    if rules != [] {
      UnchangedIsSilent(rules[..|rules| - 1], previous, current, fold);
      var rule := rules[|rules| - 1];
      var before, now := FieldValue(Some(previous), rule.field), FieldValue(Some(current), rule.field);
      assert PyEqual(before, now) by {
        NoneEqualsNone();
      }
      EqualsAgree(before, now, rule.value);
      EqualDoesNotCross(before, now, rule.operator, rule.value);
      EqualAddsNoKeyword(before, now, rule.keywords, fold);
    }
  }

  lemma NoneEqualsNone()
    ensures PyEqual(Absent, Absent)
  {
  }

  lemma EqualAddsNoKeyword(a: Scalar, b: Scalar, keywords: seq<string>, fold: Fold)
    requires PyEqual(a, b)
    ensures !NewKeyword(a, b, keywords, fold)
  {
    hide AnyKeyword;
  }

  // ---------- what a match of each kind means ----------

  /** The matches of a list are those of its parts, in order. */
  lemma {:induction false} MatchesConcat(a: seq<Rule>, b: seq<Rule>, previous: Option<Item>, current: Item, isNew: bool, fold: Fold)
    ensures Matches(a + b, previous, current, isNew, fold) ==
            Matches(a, previous, current, isNew, fold) + Matches(b, previous, current, isNew, fold)
  {
    hide MatchOf;
    if b == [] {
      assert a + b == a;
    } else {
      var n := |b| - 1;
      MatchesConcat(a, b[..n], previous, current, isNew, fold);
      assert (a + b)[..|a + b| - 1] == a + b[..n];
    }
  }

  lemma OneRule(rule: Rule, previous: Option<Item>, current: Item, isNew: bool, fold: Fold)
    ensures Matches([rule], previous, current, isNew, fold) ==
            match MatchOf(rule, previous, current, isNew, fold) case None => [] case Some(m) => [m]
  {
    hide MatchOf;
    assert [rule][..0] == [];
  }

  /** The value `before` and `now` of a rule's field, missing ones read as None. */
  ghost predicate Values(previous: Option<Item>, current: Item, field: string, before: Scalar, now: Scalar)
  {
    && field != ""
    && before == (if previous.Some? && field in previous.value.fields then previous.value.fields[field] else Absent)
    && now == (if field in current.fields then current.fields[field] else Absent)
  }

  lemma NewItemMeans(rule: Rule, previous: Option<Item>, current: Item, isNew: bool, fold: Fold)
    requires rule.kind == NewItem
    ensures Matches([rule], previous, current, isNew, fold) == if isNew then [Match(NewItem, None, Absent, Absent)] else []
  {
    OneRule(rule, previous, current, isNew, fold);
  }

  /** A rule of another kind matches at most once, with the previous value and then the
      current one. */
  lemma MatchCarries(rule: Rule, previous: Option<Item>, current: Item, isNew: bool, fold: Fold, field: string,
                     before: Scalar, now: Scalar)
    requires rule.kind != NewItem && rule.field == Some(field) && Values(previous, current, field, before, now)
    ensures Matches([rule], previous, current, isNew, fold) in {[], [Match(rule.kind, Some(field), before, now)]}
  {
    hide PyEqual, Crossed, NewKeyword;
    OneRule(rule, previous, current, isNew, fold);
  }

  lemma FieldChangedMeans(rule: Rule, previous: Option<Item>, current: Item, isNew: bool, fold: Fold, field: string,
                          before: Scalar, now: Scalar)
    requires rule.kind == FieldChanged && rule.field == Some(field) && Values(previous, current, field, before, now)
    ensures Matches([rule], previous, current, isNew, fold) != [] <==> !PyEqual(before, now)
  {
    hide PyEqual, Crossed, NewKeyword;
    OneRule(rule, previous, current, isNew, fold);
  }

  /** The field has come to equal the rule's value. */
  lemma StatusEqualsMeans(rule: Rule, previous: Option<Item>, current: Item, isNew: bool, fold: Fold, field: string,
                          before: Scalar, now: Scalar)
    requires rule.kind == StatusEquals && rule.field == Some(field) && Values(previous, current, field, before, now)
    ensures Matches([rule], previous, current, isNew, fold) != [] <==> PyEqual(now, rule.value) && !PyEqual(before, rule.value)
  {
    hide PyEqual, Crossed, NewKeyword;
    OneRule(rule, previous, current, isNew, fold);
  }

  /** Case-folded, one of the keywords stands somewhere in the text. */
  ghost predicate Mentions(text: string, keywords: seq<string>, fold: Fold)
  {
    exists k, a, b :: 0 <= k < |keywords| && fold(text) == a + fold(keywords[k]) + b
  }

  lemma MentionsMeans(text: string, keywords: seq<string>, fold: Fold)
    ensures AnyKeyword(keywords, fold(text), fold) <==> Mentions(text, keywords, fold)
  {
    var t := fold(text);
    if AnyKeyword(keywords, t, fold) {
      var k :| 0 <= k < |keywords| && Contains(fold(keywords[k]), t);
      var i :| 0 <= i <= |t| && ContainsAt(t, fold(keywords[k]), i);
      assert t == t[..i] + fold(keywords[k]) + t[i + |fold(keywords[k])|..];
    }
    if Mentions(text, keywords, fold) {
      var k, a, b :| 0 <= k < |keywords| && t == a + fold(keywords[k]) + b;
      assert t[|a|..|a| + |fold(keywords[k])|] == fold(keywords[k]);
      assert ContainsAt(t, fold(keywords[k]), |a|);
    }
  }

  /** The text has come to mention a keyword; what was no text mentioned nothing but an
      empty keyword. */
  lemma KeywordMatchMeans(rule: Rule, previous: Option<Item>, current: Item, isNew: bool, fold: Fold, field: string,
                          before: Scalar, now: Scalar)
    requires rule.kind == KeywordMatch && rule.field == Some(field) && Values(previous, current, field, before, now)
    requires fold("") == ""
    ensures Matches([rule], previous, current, isNew, fold) != [] <==>
            && now.Str? && Mentions(now.s, rule.keywords, fold)
            && !Mentions(if before.Str? then before.s else "", rule.keywords, fold)
  {
    hide PyEqual, Crossed, AnyKeyword, Mentions;
    OneRule(rule, previous, current, isNew, fold);
    if now.Str? {
      MentionsMeans(now.s, rule.keywords, fold);
    }
    MentionsMeans(if before.Str? then before.s else "", rule.keywords, fold);
  }

  /** The field holds this finite number; a bool is none. */
  ghost predicate Holds(v: Scalar, x: real)
  {
    (v.Int? && v.n as real == x) || v == Float(Finite(x))
  }

  /** A number that was not there before crosses by standing beyond the threshold. */
  lemma FirstCrossing(rule: Rule, previous: Option<Item>, current: Item, isNew: bool, fold: Fold, field: string,
                      now: Scalar, x: real, y: real)
    requires rule.kind == NumericThreshold && rule.field == Some(field) && Values(previous, current, field, Absent, now)
    requires Holds(now, x) && Holds(rule.value, y)
    ensures var fires := Matches([rule], previous, current, isNew, fold) != [];
            && (rule.operator == Some(Lt) ==> (fires <==> x < y))
            && (rule.operator == Some(Lte) ==> (fires <==> x <= y))
            && (rule.operator == Some(Eq) ==> (fires <==> x == y))
            && (rule.operator == Some(Gte) ==> (fires <==> x >= y))
            && (rule.operator == Some(Gt) ==> (fires <==> x > y))
            && (rule.operator == None ==> !fires)
  {
    hide PyEqual, NewKeyword;
    OneRule(rule, previous, current, isNew, fold);
  }

  /** A number that was there crosses by standing beyond the threshold where it did not. */
  lemma LaterCrossing(rule: Rule, previous: Option<Item>, current: Item, isNew: bool, fold: Fold, field: string,
                      before: Scalar, now: Scalar, w: real, x: real, y: real)
    requires rule.kind == NumericThreshold && rule.field == Some(field) && Values(previous, current, field, before, now)
    requires Holds(before, w) && Holds(now, x) && Holds(rule.value, y)
    ensures var fires := Matches([rule], previous, current, isNew, fold) != [];
            && (rule.operator == Some(Lt) ==> (fires <==> x < y <= w))
            && (rule.operator == Some(Lte) ==> (fires <==> x <= y < w))
            && (rule.operator == Some(Eq) ==> (fires <==> x == y != w))
            && (rule.operator == Some(Gte) ==> (fires <==> w < y <= x))
            && (rule.operator == Some(Gt) ==> (fires <==> w <= y < x))
            && (rule.operator == None ==> !fires)
  {
    hide PyEqual, NewKeyword;
    OneRule(rule, previous, current, isNew, fold);
  }

  /** Infinities are beyond every finite threshold on their side. */
  lemma InfiniteCrossing(rule: Rule, previous: Option<Item>, current: Item, isNew: bool, fold: Fold, field: string,
                         now: Scalar, y: real)
    requires rule.kind == NumericThreshold && rule.field == Some(field) && Values(previous, current, field, Absent, now)
    requires Holds(rule.value, y) && rule.operator.Some?
    ensures var fires := Matches([rule], previous, current, isNew, fold) != [];
            && (now == Float(PlusInfinity) ==> (fires <==> rule.operator.value in {Gt, Gte}))
            && (now == Float(MinusInfinity) ==> (fires <==> rule.operator.value in {Lt, Lte}))
            && (now == Float(NaN) ==> !fires)
  {
    hide PyEqual, NewKeyword;
    OneRule(rule, previous, current, isNew, fold);
  }

  /** An infinite threshold is met by the same infinity, lies beyond everything else on its
      side, and a NaN is never crossed. */
  lemma InfiniteThreshold(rule: Rule, previous: Option<Item>, current: Item, isNew: bool, fold: Fold, field: string,
                          now: Scalar)
    requires rule.kind == NumericThreshold && rule.field == Some(field) && Values(previous, current, field, Absent, now)
    requires rule.operator.Some? && (now.Int? || now.Float?)
    ensures var fires := Matches([rule], previous, current, isNew, fold) != [];
            && (rule.value == Float(PlusInfinity) ==> (fires <==>
                  if now == Float(PlusInfinity) then rule.operator.value in {Lte, Eq, Gte}
                  else now != Float(NaN) && rule.operator.value in {Lt, Lte}))
            && (rule.value == Float(MinusInfinity) ==> (fires <==>
                  if now == Float(MinusInfinity) then rule.operator.value in {Lte, Eq, Gte}
                  else now != Float(NaN) && rule.operator.value in {Gt, Gte}))
            && (rule.value == Float(NaN) ==> !fires)
  {
    hide PyEqual, NewKeyword;
    OneRule(rule, previous, current, isNew, fold);
  }

  /** Whatever the numbers, infinities and NaNs included: a value crosses after a previous number
      exactly when it would cross on its own and the previous number would not have. */
  lemma CrossingIsNews(rule: Rule, previous: Option<Item>, earlier: Item, current: Item, isNew: bool, fold: Fold, field: string,
                       before: Scalar, now: Scalar)
    requires rule.kind == NumericThreshold && rule.field == Some(field) && Values(previous, current, field, before, now)
    requires (before.Int? || before.Float?) && Values(None, earlier, field, Absent, before)
    ensures Matches([rule], previous, current, isNew, fold) != [] <==>
            Matches([rule], None, current, isNew, fold) != [] && Matches([rule], None, earlier, isNew, fold) == []
  {
    hide PyEqual, NewKeyword, Satisfies;
    OneRule(rule, previous, current, isNew, fold);
    OneRule(rule, None, current, isNew, fold);
    OneRule(rule, None, earlier, isNew, fold);
  }

  /** A threshold, or a value, that is a text, a bool or missing is never crossed, nor is any
      threshold by a value that was a text or a bool. A previous NaN stood beyond nothing. */
  lemma NoCrossing(rule: Rule, previous: Option<Item>, current: Item, isNew: bool, fold: Fold, field: string,
                   before: Scalar, now: Scalar)
    requires rule.kind == NumericThreshold && rule.field == Some(field) && Values(previous, current, field, before, now)
    ensures (now.Absent? || now.Str? || now.Bool? || rule.value.Absent? || rule.value.Str? || rule.value.Bool?
             || before.Str? || before.Bool?) ==> Matches([rule], previous, current, isNew, fold) == []
    ensures before == Float(NaN) && current.fields == map[field := now] ==>
            (Matches([rule], previous, current, isNew, fold) != [] <==> Matches([rule], None, current, isNew, fold) != [])
  {
    OneRule(rule, previous, current, isNew, fold);
    OneRule(rule, None, current, isNew, fold);
  }
}
