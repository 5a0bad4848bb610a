/** The `{ isValid, error? }` verdict every validation rule returns, and the early-return chain
    the aggregating validators build from several verdicts. */
module Verdicts {

  /** `{ isValid: true }` or `{ isValid: false, error }`. */
  datatype Verdict = Valid | Invalid(error: string)

  /** A chain of `if (!v.isValid) return v;` checks over `checks`, in order, ending in
      `{ isValid: true }`. */
  function FirstFailure(checks: seq<Verdict>): (r: Verdict)
    ensures r.Valid? <==> forall i :: 0 <= i < |checks| ==> checks[i].Valid?
    ensures r.Invalid? ==> exists i :: 0 <= i < |checks| && checks[i] == r
                                      && forall j :: 0 <= j < i ==> checks[j].Valid?
  {
    if checks == [] then Valid
    else if checks[0].Invalid? then checks[0]
    else
      var r := FirstFailure(checks[1..]);
      assert r.Invalid? ==> exists i :: 0 <= i < |checks| && checks[i] == r
                                        && forall j :: 0 <= j < i ==> checks[j].Valid? by {
        if r.Invalid? {
          var i :| 0 <= i < |checks[1..]| && checks[1..][i] == r
                   && forall j :: 0 <= j < i ==> checks[1..][j].Valid?;
          assert checks[i + 1] == r;
          assert forall j :: 0 <= j < i + 1 ==> checks[j].Valid? by {
            forall j | 0 <= j < i + 1 ensures checks[j].Valid? {
              if j > 0 { assert checks[j] == checks[1..][j - 1]; }
            }
          }
        }
      }
      r
  }

  /** Five checks folded by `FirstFailure`, unrolled one step at a time. */
  lemma {:induction false} FirstFailureOfFive(a: Verdict, b: Verdict, c: Verdict, d: Verdict, e: Verdict)
    ensures FirstFailure([a, b, c, d, e]) ==
            if a.Invalid? then a else if b.Invalid? then b else if c.Invalid? then c
            else if d.Invalid? then d else if e.Invalid? then e else Valid
  {
    var s := [a, b, c, d, e];
    assert s[1..] == [b, c, d, e] && s[1..][1..] == [c, d, e] && s[1..][1..][1..] == [d, e];
    assert s[1..][1..][1..][1..] == [e] && s[1..][1..][1..][1..][1..] == [];
    assert FirstFailure([e]) == (if e.Invalid? then e else FirstFailure([]));
    assert FirstFailure([d, e]) == (if d.Invalid? then d else FirstFailure([e]));
    assert FirstFailure([c, d, e]) == (if c.Invalid? then c else FirstFailure([d, e]));
    assert FirstFailure([b, c, d, e]) == (if b.Invalid? then b else FirstFailure([c, d, e]));
  }
}
