/**
 * SpiExpressionValidation: collects, for a bean type, the property paths of a query's
 * expressions that the bean type does not recognise. The collection is a LinkedHashSet:
 * no duplicates, first-seen order.
 */
module ExpressionValidation {
  import opened JavaLang

  /** What validating the paths ps, in order, adds to an unknown set that starts as `unknown`. */
  function AfterValidating(unknown: seq<string>, ps: seq<string>, isValid: string -> bool): seq<string>
    decreases |ps|
  {
    if |ps| == 0 then unknown
    else
      var init := AfterValidating(unknown, ps[..|ps| - 1], isValid);
      var p := ps[|ps| - 1];
      if isValid(p) || p in init then init else init + [p]
  }

  /** Validating a then b is validating a + b. */
  lemma {:induction false} AfterValidatingAppend(unknown: seq<string>, a: seq<string>, b: seq<string>, isValid: string -> bool)
    ensures AfterValidating(unknown, a + b, isValid) == AfterValidating(AfterValidating(unknown, a, isValid), b, isValid)
    decreases |b|
  {
    if |b| == 0 {
      assert a + b == a;
    } else {
      var init := b[..|b| - 1];
      assert (a + b)[..|a + b| - 1] == a + init;
      AfterValidatingAppend(unknown, a, init, isValid);
    }
  }

  /**
   * Validating a run of paths only appends; it keeps the set free of duplicates; and a path
   * ends up in it exactly when it was there before or was validated and found invalid.
   */
  lemma {:induction false} AfterValidatingSpec(unknown: seq<string>, ps: seq<string>, isValid: string -> bool)
    requires NoDuplicates(unknown)
    ensures var r := AfterValidating(unknown, ps, isValid);
      |r| >= |unknown| && r[..|unknown|] == unknown && NoDuplicates(r) &&
      forall p :: p in r <==> p in unknown || (p in ps && !isValid(p))
    decreases |ps|
  {
    if |ps| > 0 {
      var init := ps[..|ps| - 1];
      AfterValidatingSpec(unknown, init, isValid);
      var r0 := AfterValidating(unknown, init, isValid);
      var r := AfterValidating(unknown, ps, isValid);
      assert ps == init + [ps[|ps| - 1]];
      assert r[..|unknown|] == r0[..|unknown|];
      forall p
        ensures p in r <==> p in unknown || (p in ps && !isValid(p))
      {
        assert p in ps <==> p in init || p == ps[|ps| - 1];
      }
    }
  }

  /** Names that pass validation are never reported. */
  lemma ValidNamesNeverReported(ps: seq<string>, isValid: string -> bool, p: string)
    requires isValid(p)
    ensures p !in AfterValidating([], ps, isValid)
  {
    AfterValidatingSpec([], ps, isValid);
  }

  class Validation {
    /** BeanType.isValidExpression of the bean type being validated against. */
    const isValidExpression: string -> bool

    /** The unknown paths, in first-seen order. */
    var unknown: seq<string>

    ghost predicate Valid()
      reads this
    {
      NoDuplicates(unknown) && forall i | 0 <= i < |unknown| :: !isValidExpression(unknown[i])
    }

    constructor(isValidExpression: string -> bool)
      ensures this.isValidExpression == isValidExpression
      ensures unknown == [] && Valid()
    {
      this.isValidExpression := isValidExpression;
      unknown := [];
    }

    /** validate(p): p joins the unknown set when it is not a valid expression path. */
    method Validate(p: string)
      requires Valid()
      modifies this
      ensures Valid()
      ensures unknown == AfterValidating(old(unknown), [p], isValidExpression)
    {
      assert [p][..0] == [];
      if !isValidExpression(p) && p !in unknown {
        unknown := unknown + [p];
      }
    }

    /** getUnknownProperties. */
    function UnknownProperties(): seq<string>
      reads this
    {
      unknown
    }
  }
}
