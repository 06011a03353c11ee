/**
 * `makeFulfillment(issuers)`: the description of who must sign an output,
 * a single Ed25519 key or a threshold over one Ed25519 key per issuer.
 */
module MakeFulfillment {
  import opened JsValue

  /** `{type: 'ed25519-sha-256', public_key: issuer}` */
  function Ed25519Description(issuer: Value): Value
  {
    Obj([("type", Str("ed25519-sha-256")), ("public_key", issuer)])
  }

  /** The description for `issuers`: one issuer keeps the list as `public_keys`; any other count makes a threshold. */
  function FulfillmentSpec(issuers: seq<Value>): Value
  {
    if |issuers| == 1 then
      Obj([("type", Str("ed25519-sha-256")), ("public_keys", Arr(issuers))])
    else
      Obj([("type", Str("threshold-sha-256")),
           ("subconditions", Arr(seq(|issuers|, i requires 0 <= i < |issuers| => Ed25519Description(issuers[i]))))])
  }

  /** The subconditions are pushed one issuer at a time. */
  method MakeFulfillment(issuers: seq<Value>) returns (fulfillment: Value)
    ensures fulfillment == FulfillmentSpec(issuers)
  {
    if |issuers| == 1 {
      return Obj([("type", Str("ed25519-sha-256")), ("public_keys", Arr(issuers))]);
    }
    var subconditions: seq<Value> := [];
    var i := 0;
    while i < |issuers|
      invariant 0 <= i <= |issuers|
      invariant |subconditions| == i
      invariant forall j | 0 <= j < i :: subconditions[j] == Ed25519Description(issuers[j])
    {
      subconditions := subconditions + [Ed25519Description(issuers[i])];
      i := i + 1;
    }
    assert subconditions == seq(|issuers|, j requires 0 <= j < |issuers| => Ed25519Description(issuers[j]));
    fulfillment := Obj([("type", Str("threshold-sha-256")), ("subconditions", Arr(subconditions))]);
  }

  /**
   * One issuer gives an Ed25519 description listing it; any other number gives
   * a threshold description with no `threshold` member and one Ed25519
   * subcondition per issuer, in order (none for no issuers).
   */
  lemma FulfillmentFacts(issuers: seq<Value>)
    ensures var es := FulfillmentSpec(issuers).entries;
            |issuers| == 1 ==>
              && Keys(es) == ["type", "public_keys"]
              && Lookup(es, "type") == Str("ed25519-sha-256")
              && Lookup(es, "public_keys") == Arr(issuers)
    ensures var es := FulfillmentSpec(issuers).entries;
            |issuers| != 1 ==>
              && Keys(es) == ["type", "subconditions"]
              && !HasKey(es, "threshold")
              && Lookup(es, "type") == Str("threshold-sha-256")
              && var subs := Lookup(es, "subconditions");
                 && subs.Arr? && |subs.items| == |issuers|
                 && forall i | 0 <= i < |issuers| ::
                      && subs.items[i].Obj?
                      && Lookup(subs.items[i].entries, "type") == Str("ed25519-sha-256")
                      && Lookup(subs.items[i].entries, "public_key") == issuers[i]
  {
    var es := FulfillmentSpec(issuers).entries;
    IndexOfKeyIs(es, es[1].0, 1);
    forall i | 0 <= i < |issuers| && |issuers| != 1
      ensures Lookup(Ed25519Description(issuers[i]).entries, "public_key") == issuers[i]
    {
      IndexOfKeyIs(Ed25519Description(issuers[i]).entries, "public_key", 1);
    }
  }
}
