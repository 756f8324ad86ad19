/** The page actions of a scrape, as its config model checks them (api/app/schemas/jobs.py). */
module PageActions {
  import opened Common
  import opened Json

  type Action = map<string, Json>

  /** Python's `int` of a string; None where it raises ValueError. */
  type Numeral = string -> Option<int>

  const MAX_ACTIONS: nat := 20

  const ACTION_TYPES: set<string> :=
    {"wait", "wait_for_selector", "click", "type", "press", "scroll", "execute_js", "screenshot"}

  datatype Outcome = Fine | ValueError | OtherError

  /** `action.get(name)`. */
  function Get(a: Action, name: string): Json {
    if name in a then a[name] else Null
  }

  function Truncated(n: real): int {
    if n >= 0.0 then n.Floor else -(-n).Floor
  }

  /** `int(ms)`, where it gives an integer: a bool is one, a float is cut towards zero. */
  function AsInt(ms: Json, numeral: Numeral): Option<int> {
    match ms
    case Bool(b) => Some(if b then 1 else 0)
    case Num(n) => Some(Truncated(n))
    case Str(s) => numeral(s)
    case _ => None
  }

  predicate WaitFits(ms: Json, numeral: Numeral) {
    AsInt(ms, numeral).Some? && 1 <= AsInt(ms, numeral).value <= 10000
  }

  predicate InRange(ms: Json, numeral: Numeral) {
    match ms
    case Bool(b) => b
    case Num(n) => 1.0 <= n < 10_001.0
    case Str(s) => numeral(s).Some? && 1 <= numeral(s).value <= 10_000
    case _ => false
  }

  /** True counts as one, and a fraction of a millisecond past ten thousand is cut off. */
  lemma WaitIsInRange(ms: Json, numeral: Numeral)
    ensures WaitFits(ms, numeral) <==> InRange(ms, numeral)
  {
    if ms.Num? && ms.n < 0.0 {
      assert (-ms.n).Floor >= 0;
    }
  }

  predicate NeedsSelector(kind: Json) {
    kind == Str("click") || kind == Str("type") || kind == Str("wait_for_selector")
  }

  predicate Passing(a: Action, numeral: Numeral) {
    var kind, selector := Get(a, "type"), Get(a, "selector");
    && kind.Str? && kind.s in ACTION_TYPES
    && (kind == Str("wait") ==> WaitFits(Get(a, "milliseconds"), numeral))
    && (NeedsSelector(kind) ==> selector.Str? && selector.s != "")
  }

  /** A type that cannot be looked up, or a wait that `int` finds too large: neither is a ValueError, which
      is all the config model turns into a problem. */
  predicate Raising(a: Action) {
    Unhashable(Get(a, "type")) || (Get(a, "type") == Str("wait") && Get(a, "milliseconds").Infinite?)
  }

  /** Some action raises, and none before it is refused. */
  predicate SomeRaises(actions: seq<Action>, numeral: Numeral) {
    && |actions| <= MAX_ACTIONS
    && exists i | 0 <= i < |actions| :: Raising(actions[i]) && forall j | 0 <= j < i :: Passing(actions[j], numeral)
  }

  predicate AllPass(actions: seq<Action>, numeral: Numeral) {
    |actions| <= MAX_ACTIONS && forall i | 0 <= i < |actions| :: Passing(actions[i], numeral)
  }

  /** The actions of a raw config, if they are a list of objects: only then is their validator called. */
  function GivenActions(raw: map<string, Json>): Option<seq<Action>> {
    if "actions" !in raw || !raw["actions"].Arr? then None
    else
      var items := raw["actions"].items;
      if forall i | 0 <= i < |items| :: items[i].Obj? then
        Some(seq(|items|, i requires 0 <= i < |items| && items[i].Obj? => items[i].fields))
      else None
  }

  predicate ActionsRaise(raw: map<string, Json>, numeral: Numeral) {
    GivenActions(raw).Some? && SomeRaises(GivenActions(raw).value, numeral)
  }

  /** `validate_page_actions`. */
  method ValidatePageActions(actions: Option<seq<Action>>, numeral: Numeral) returns (r: Outcome)
    ensures r.OtherError? <==> actions.Some? && SomeRaises(actions.value, numeral)
    ensures r.Fine? <==> (actions.Some? ==> AllPass(actions.value, numeral))
    ensures actions.Some? && |actions.value| > 20 ==> r == ValueError
  {
    if actions.None? {
      return Fine;
    }
    var v := actions.value;
    if |v| > MAX_ACTIONS {
      return ValueError;
    }
    for i := 0 to |v|
      invariant forall j :: 0 <= j < i ==> Passing(v[j], numeral)
    {
      r := CheckAction(v[i], numeral);
      if !r.Fine? {
        return;
      }
    }
    return Fine;
  }

  /** One turn of its loop. */
  method CheckAction(a: Action, numeral: Numeral) returns (r: Outcome)
    ensures r.Fine? <==> Passing(a, numeral)
    ensures r.OtherError? <==> Raising(a)
    ensures r.Fine? <==>
              "type" in a && match a["type"]
                             case Str("wait") => "milliseconds" in a && InRange(a["milliseconds"], numeral)
                             case Str("click") | Str("type") | Str("wait_for_selector") =>
                               "selector" in a && a["selector"].Str? && a["selector"].s != ""
                             case Str(s) => s == "press" || s == "scroll" || s == "execute_js" || s == "screenshot"
                             case _ => false
    ensures r.OtherError? <==>
              && "type" in a
              && (|| a["type"].Arr? || a["type"].Obj?
                  || (a["type"] == Str("wait") && "milliseconds" in a && a["milliseconds"].Infinite?))
  {
    WaitIsInRange(Get(a, "milliseconds"), numeral);
    var kind := Get(a, "type");
    if Unhashable(kind) {
      return OtherError;
    }
    if !(kind.Str? && kind.s in ACTION_TYPES) {
      return ValueError;
    }
    if kind == Str("wait") {
      var ms := Get(a, "milliseconds");
      if ms.Infinite? {
        return OtherError;
      }
      var n := AsInt(ms, numeral);
      r := if n.Some? && 1 <= n.value <= 10000 then Fine else ValueError;
    } else if NeedsSelector(kind) {
      var selector := Get(a, "selector");
      r := if Truthy(selector) && selector.Str? then Fine else ValueError;
    } else {
      r := Fine;
    }
  }
}
