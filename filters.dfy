/**
 * The dynamic filter rules of the manual check: an email is kept when some usable
 * rule matches it (OR between rules), and a rule matches when every field it
 * configures occurs, ignoring case, in the corresponding email field (AND inside
 * a rule).  A missing email field reads as the empty string.
 */
module Filters {
  import opened Wrappers
  import opened Text
  import opened Models

  /** The three email fields a rule can look at; `None` is a field the email lacks. */
  datatype EmailFields = EmailFields(sender: Option<string>, subject: Option<string>, body: Option<string>)

  /** `pattern.lower() in (field or "").lower()`. */
  predicate FieldMatches(pattern: string, field: Option<string>) {
    Contains(Lower(field.GetOr("")), Lower(pattern))
  }

  /** A rule configures at least one field (a falsy field is not configured). */
  predicate Configured(f: EmailFilter) {
    Truthy(f.fromAddress) || Truthy(f.subjectContains) || Truthy(f.bodyContains)
  }

  /** The list of conditions a rule builds: one per configured field, in field order. */
  function Conditions(f: EmailFilter, em: EmailFields): (r: seq<bool>)
    ensures |r| == (if Truthy(f.fromAddress) then 1 else 0) + (if Truthy(f.subjectContains) then 1 else 0)
                   + (if Truthy(f.bodyContains) then 1 else 0)
    ensures r == [] <==> !Configured(f)
  {
    (if Truthy(f.fromAddress) then [FieldMatches(f.fromAddress.value, em.sender)] else [])
    + (if Truthy(f.subjectContains) then [FieldMatches(f.subjectContains.value, em.subject)] else [])
    + (if Truthy(f.bodyContains) then [FieldMatches(f.bodyContains.value, em.body)] else [])
  }

  /** Python's `all(conds)`. */
  predicate All(cs: seq<bool>) {
    forall i :: 0 <= i < |cs| ==> cs[i]
  }

  /** The walk over the rules with its early return: skip disabled and vacuous rules, stop at the first match. */
  function AnyRuleMatches(filters: seq<EmailFilter>, em: EmailFields): bool
    decreases |filters|
  {
    if filters == [] then false
    else
      var f := filters[0];
      if !f.enabled then AnyRuleMatches(filters[1..], em)
      else if !Configured(f) then AnyRuleMatches(filters[1..], em)
      else if All(Conditions(f, em)) then true
      else AnyRuleMatches(filters[1..], em)
  }

  /** `apply_filters_to_email`: no rules at all accepts everything. */
  function ApplyFiltersToEmail(em: EmailFields, filters: seq<EmailFilter>): bool {
    if filters == [] then true else AnyRuleMatches(filters, em)
  }

  // ----- the reading of the rules, independent of the condition list -----

  /** A configured field of a rule is satisfied by the email; an unconfigured one always is. */
  predicate FieldSatisfied(pattern: Option<string>, field: Option<string>) {
    Truthy(pattern) ==> FieldMatches(pattern.value, field)
  }

  /** A rule that takes part in the decision: enabled and configuring some field. */
  predicate Usable(f: EmailFilter) {
    f.enabled && Configured(f)
  }

  /** A usable rule all of whose configured fields match the email. */
  predicate RuleMatches(f: EmailFilter, em: EmailFields) {
    && Usable(f)
    && FieldSatisfied(f.fromAddress, em.sender)
    && FieldSatisfied(f.subjectContains, em.subject)
    && FieldSatisfied(f.bodyContains, em.body)
  }

  lemma AllConcat(a: seq<bool>, b: seq<bool>)
    ensures All(a + b) <==> All(a) && All(b)
  {
    if All(a + b) {
      assert forall i :: 0 <= i < |a| ==> a[i] == (a + b)[i];
      assert forall i :: 0 <= i < |b| ==> b[i] == (a + b)[|a| + i];
    }
  }

  /** The condition list of one field holds exactly when the field is satisfied. */
  lemma OneCondition(pattern: Option<string>, field: Option<string>)
    ensures All(if Truthy(pattern) then [FieldMatches(pattern.value, field)] else []) <==> FieldSatisfied(pattern, field)
  {
    if Truthy(pattern) {
      var l := [FieldMatches(pattern.value, field)];
      assert All(l) <==> l[0];
    }
  }

  /** `all(conds)` is the conjunction over the configured fields. */
  lemma ConditionsMeanFields(f: EmailFilter, em: EmailFields)
    ensures All(Conditions(f, em)) <==>
              FieldSatisfied(f.fromAddress, em.sender) && FieldSatisfied(f.subjectContains, em.subject)
              && FieldSatisfied(f.bodyContains, em.body)
  {
    var a := if Truthy(f.fromAddress) then [FieldMatches(f.fromAddress.value, em.sender)] else [];
    var b := if Truthy(f.subjectContains) then [FieldMatches(f.subjectContains.value, em.subject)] else [];
    var c := if Truthy(f.bodyContains) then [FieldMatches(f.bodyContains.value, em.body)] else [];
    assert Conditions(f, em) == a + b + c;
    OneCondition(f.fromAddress, em.sender);
    OneCondition(f.subjectContains, em.subject);
    OneCondition(f.bodyContains, em.body);
    AllConcat(a + b, c);
    AllConcat(a, b);
  }

  /** The walk finds a match exactly when some rule of the list matches. */
  lemma {:induction false} AnyRuleMatchesCharacterized(filters: seq<EmailFilter>, em: EmailFields)
    ensures AnyRuleMatches(filters, em) <==> exists i :: 0 <= i < |filters| && RuleMatches(filters[i], em)
    decreases |filters|
  {
    if filters != [] {
      var f := filters[0];
      ConditionsMeanFields(f, em);
      AnyRuleMatchesCharacterized(filters[1..], em);
      if exists i :: 0 <= i < |filters| && RuleMatches(filters[i], em) {
        var i :| 0 <= i < |filters| && RuleMatches(filters[i], em);
        if i > 0 {
          assert filters[1..][i - 1] == filters[i];
        }
      }
      if exists i :: 0 <= i < |filters[1..]| && RuleMatches(filters[1..][i], em) {
        var i :| 0 <= i < |filters[1..]| && RuleMatches(filters[1..][i], em);
        assert filters[i + 1] == filters[1..][i];
      }
    }
  }

  /**
   * The decision of `apply_filters_to_email` in one statement: an email is accepted
   * exactly when there are no rules, or some enabled, non-vacuous rule has every
   * configured field as a case-insensitive substring of the email's field.
   */
  lemma FiltersAcceptIff(em: EmailFields, filters: seq<EmailFilter>)
    ensures ApplyFiltersToEmail(em, filters) <==>
              filters == [] || exists i :: 0 <= i < |filters| && RuleMatches(filters[i], em)
  {
    AnyRuleMatchesCharacterized(filters, em);
  }

  /** No rules: every email is accepted. */
  lemma EmptyFiltersAcceptAll(em: EmailFields)
    ensures ApplyFiltersToEmail(em, [])
  {
  }

  /**
   * A non-empty list of rules that are all disabled or vacuous rejects every email:
   * the skipped rules do not count as "no rules".
   */
  lemma OnlyUnusableFiltersRejectAll(em: EmailFields, filters: seq<EmailFilter>)
    requires filters != [] && forall i :: 0 <= i < |filters| ==> !Usable(filters[i])
    ensures !ApplyFiltersToEmail(em, filters)
  {
    FiltersAcceptIff(em, filters);
  }

  /** Adding a rule never rejects an email the rules accepted before (OR between rules). */
  lemma AddingRuleKeepsAccepted(em: EmailFields, filters: seq<EmailFilter>, f: EmailFilter)
    requires filters != [] && ApplyFiltersToEmail(em, filters)
    ensures ApplyFiltersToEmail(em, filters + [f]) && ApplyFiltersToEmail(em, [f] + filters)
  {
    FiltersAcceptIff(em, filters);
    FiltersAcceptIff(em, filters + [f]);
    FiltersAcceptIff(em, [f] + filters);
    var i :| 0 <= i < |filters| && RuleMatches(filters[i], em);
    assert (filters + [f])[i] == filters[i];
    assert ([f] + filters)[i + 1] == filters[i];
  }

  lemma LowerIdempotent(s: string)
    ensures Lower(Lower(s)) == Lower(s)
  {
  }

  /** The comparison ignores case: a pattern and its lower-cased form match the same fields. */
  lemma FieldMatchIgnoresCase(pattern: string, field: Option<string>)
    ensures FieldMatches(Lower(pattern), field) == FieldMatches(pattern, field)
  {
    LowerIdempotent(pattern);
  }
}
