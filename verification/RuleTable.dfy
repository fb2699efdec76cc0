/** The alert_rules table and the order in which the worker tries rules (api/internal/rules/store.go). */
module RuleTable {
  import opened Wrappers
  import opened Payloads
  import opened EventTable

  datatype Rule = Rule(
    user: nat,
    name: string,
    kind: string,
    threshold: Option<real>,
    enabled: bool,
    createdAt: Instant)

  /** A rule with no threshold matches any amount; a threshold matches only amounts at or below it. */
  predicate Admits(threshold: Option<real>, amount: Option<real>) {
    threshold.None? || (amount.Some? && amount.value <= threshold.value)
  }

  predicate Applies(rule: Rule, user: nat, kind: string, amount: Option<real>) {
    && rule.enabled
    && rule.user == user
    && rule.kind == kind
    && Admits(rule.threshold, amount)
  }

  /** chosen is an oldest rule that applies, or None when no rule does. */
  predicate FirstMatch(rules: map<nat, Rule>, user: nat, kind: string, amount: Option<real>, chosen: Option<nat>) {
    match chosen
    case None => forall r :: r in rules ==> !Applies(rules[r], user, kind, amount)
    case Some(c) =>
      && c in rules
      && Applies(rules[c], user, kind, amount)
      && forall r :: r in rules && Applies(rules[r], user, kind, amount) ==> rules[c].createdAt <= rules[r].createdAt
  }

  /**
   A rule with a threshold applies to an event whose payload carries no number exactly when the payload is an object
   with a null amount, the threshold is not negative, and the rule is enabled and of the event's user and type.
   */
  lemma ThresholdWithoutNumber(rule: Rule, user: nat, kind: string, payload: Payload)
    requires rule.threshold.Some? && !(payload.Object? && payload.field.Number?)
    ensures PayloadAmount(payload).Success? && Applies(rule, user, kind, PayloadAmount(payload).value) <==>
            && payload == Object(NullAmount) && 0.0 <= rule.threshold.value
            && rule.enabled && rule.user == user && rule.kind == kind
  {
  }
}
