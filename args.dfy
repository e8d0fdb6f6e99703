/** The argument helpers of spock/args.py. */
module Args {
  import opened Results
  import opened Values

  /** `BoolArg(x)` is `bool(x)`. */
  function BoolArg(x: Value): (r: bool)
    ensures x.Bool? ==> r == x.b
    ensures x.Int? ==> (r <==> x.i != 0)
    ensures x.Null? ==> !r
  {
    Truthy(x)
  }

  /** `boolean_string`: only the exact strings `True` and `False` are accepted. */
  function BooleanString(s: string): (r: Result<bool>)
    ensures r.Err? <==> s != "True" && s != "False"
    ensures r.Err? ==> r.exc == ValueError
    ensures r.Ok? ==> (r.value <==> s == "True")
  {
    if s != "False" && s != "True" then Err(ValueError) else Ok(s == "True")
  }

  /** `boolean_string` inverts Python's `str` on booleans. */
  lemma BooleanStringRoundTrip(b: bool)
    ensures BooleanString(if b then "True" else "False") == Ok(b)
  {
  }

  /** A ChoiceArg: the allowed values, the default, and the one type name they share. */
  datatype ChoiceArg = ChoiceArg(choiceSet: seq<Value>, default: Value, setType: string)

  function TypeNames(vs: seq<Value>): (r: set<string>)
    ensures forall i :: 0 <= i < |vs| ==> TypeName(vs[i]) in r
    ensures forall t :: t in r ==> exists i :: 0 <= i < |vs| && TypeName(vs[i]) == t
  {
    set i | 0 <= i < |vs| :: TypeName(vs[i])
  }

  /** `ChoiceArg._verify`: the choices must share one type; an empty choice set
      fails when the first element of the empty type set is taken. */
  function Verify(choiceSet: seq<Value>): (r: Result<string>)
    ensures |TypeNames(choiceSet)| > 1 ==> r == Err(TypeError)
    ensures choiceSet == [] ==> r == Err(IndexError)
    ensures r.Ok? ==> choiceSet != [] && forall i :: 0 <= i < |choiceSet| ==> TypeName(choiceSet[i]) == r.value
  {
    var ts := TypeNames(choiceSet);
    if |ts| > 1 then Err(TypeError)
    else if |ts| == 0 then Err(IndexError)
    else
      var t :| t in ts;
      Singleton(ts, t);
      Ok(t)
  }

  /** `ChoiceArg(choice_set, default)` */
  function NewChoiceArg(choiceSet: seq<Value>, default: Value): (r: Result<ChoiceArg>)
    ensures r.Ok? ==> r.value.choiceSet == choiceSet && r.value.default == default
    ensures r.Ok? <==> Verify(choiceSet).Ok?
    ensures r.Ok? ==> r.value.setType == Verify(choiceSet).value
  {
    var t :- Verify(choiceSet);
    Ok(ChoiceArg(choiceSet, default, t))
  }

  /** Choices of one type are accepted, and that type is recorded. */
  lemma SameTypeAccepted(choiceSet: seq<Value>, t: string)
    requires choiceSet != [] && forall i :: 0 <= i < |choiceSet| ==> TypeName(choiceSet[i]) == t
    ensures Verify(choiceSet) == Ok(t)
  {
    var ts := TypeNames(choiceSet);
    assert TypeName(choiceSet[0]) in ts;
    assert forall u :: u in ts <==> u == t;
    assert ts == {t};
  }

  lemma Singleton(s: set<string>, t: string)
    requires t in s && |s| <= 1
    ensures s == {t}
  {
    var r := s - {t};
    assert s == r + {t};
    assert |s| == |r| + 1;
    assert r == {};
  }
}
