/**
 * The validation state of a bound request (ASP.NET's `ModelStateDictionary`)
 * and the `GetErrors` extension that flattens it into one message list.
 */
module ModelStateExtension {

  /** One bound field: its key and the error messages recorded against it, in order. */
  datatype Entry = Entry(key: string, errors: seq<string>)

  /** The entries in the order the dictionary enumerates them. */
  type ModelState = seq<Entry>

  /** `ModelState.IsValid`: no entry has recorded an error. */
  predicate IsValid(ms: ModelState) {
    forall i :: 0 <= i < |ms| ==> ms[i].errors == []
  }

  /** The number of errors recorded over all entries. */
  function ErrorCount(ms: ModelState): nat {
    if ms == [] then 0 else |ms[0].errors| + ErrorCount(ms[1..])
  }

  /**
   * `GetErrors`: each entry's messages, entry after entry. Its length is the
   * total number of errors and it is empty exactly when the state is valid.
   */
  function GetErrors(ms: ModelState): (r: seq<string>)
    ensures |r| == ErrorCount(ms)
    ensures r == [] <==> IsValid(ms)
  {
    if ms == [] then [] else ms[0].errors + GetErrors(ms[1..])
  }

  lemma {:induction false} ErrorCountAppend(a: ModelState, b: ModelState)
    ensures ErrorCount(a + b) == ErrorCount(a) + ErrorCount(b)
  {
    if a != [] {
      assert (a + b)[1..] == a[1..] + b;
      ErrorCountAppend(a[1..], b);
    } else {
      assert a + b == b;
    }
  }

  /** Flattening distributes over concatenation of states. */
  lemma {:induction false} GetErrorsAppend(a: ModelState, b: ModelState)
    ensures GetErrors(a + b) == GetErrors(a) + GetErrors(b)
  {
    if a == [] {
      assert a + b == b;
    } else {
      assert (a + b)[1..] == a[1..] + b;
      GetErrorsAppend(a[1..], b);
    }
  }

  /**
   * Error `j` of entry `k` sits in the flattened list right after all errors of
   * the entries before `k`: nothing is dropped, merged or reordered.
   */
  lemma GetErrorsAt(ms: ModelState, k: nat, j: nat)
    requires k < |ms| && j < |ms[k].errors|
    ensures ErrorCount(ms[..k]) + j < |GetErrors(ms)|
    ensures GetErrors(ms)[ErrorCount(ms[..k]) + j] == ms[k].errors[j]
  {
    assert ms == ms[..k] + ([ms[k]] + ms[k + 1..]);
    ErrorCountAppend(ms[..k], [ms[k]] + ms[k + 1..]);
    GetErrorsAppend(ms[..k], [ms[k]] + ms[k + 1..]);
    assert ([ms[k]] + ms[k + 1..])[1..] == ms[k + 1..];
  }

  /** A message is reported exactly when some entry recorded it. */
  lemma {:induction false} GetErrorsContains(ms: ModelState, m: string)
    ensures m in GetErrors(ms) <==> exists i :: 0 <= i < |ms| && m in ms[i].errors
  {
    if ms != [] {
      GetErrorsContains(ms[1..], m);
      if m in GetErrors(ms[1..]) {
        var i :| 0 <= i < |ms[1..]| && m in ms[1..][i].errors;
        assert m in ms[i + 1].errors;
      }
      if exists i :: 0 <= i < |ms| && m in ms[i].errors {
        var i :| 0 <= i < |ms| && m in ms[i].errors;
        if i > 0 {
          assert m in ms[1..][i - 1].errors;
        }
      }
    }
  }
}
