/** A parameter of a TVheadend record (class TVHRecordParameter,
    transcode_recordings.py:131-146): the entries of one `params` object of
    the server's JSON answer, filtered into attributes. */
module Params {
  import opened Strings

  /** A JSON value as Python holds it after `json.loads`. A float keeps the
      text Python would write for it; a list or object keeps its text and its
      number of elements. */
  datatype Value =
    | Str(s: string)
    | Int(i: int)
    | Float(text: string)
    | Bool(b: bool)
    | Null
    | Composite(text: string, size: nat)

  /** `type(value) in (str, int, float)`: exact types, so a bool, although a
      subclass of int in Python, is not bound. */
  predicate Bindable(v: Value) {
    v.Str? || v.Int? || v.Float?
  }

  /** Python truthiness. */
  predicate Truthy(v: Value) {
    match v
    case Str(s) => s != ""
    case Int(i) => i != 0
    case Float(text) => text != "0.0" && text != "-0.0"
    case Bool(b) => b
    case Null => false
    case Composite(_, size) => size > 0
  }

  /** `str(value)`, as an f-string writes an attribute. */
  function Display(v: Value): string {
    match v
    case Str(s) => s
    case Int(i) => IntToString(i)
    case Float(text) => text
    case Bool(b) => if b then "True" else "False"
    case Null => "None"
    case Composite(text, _) => text
  }

  /** The attributes `__init__` leaves on the object after reading `items` in
      order: `value` starts as None; an entry keyed "id" is skipped; any other
      entry whose value is a str, int or float is bound under its key,
      a later entry replacing an earlier one. */
  function Attributes(items: seq<(string, Value)>): (m: map<string, Value>)
    ensures "value" in m && "id" !in m
    ensures forall k :: k in m ==> Bindable(m[k]) || (k == "value" && m[k] == Null)
  {
    if items == [] then map["value" := Null]
    else
      var m := Attributes(items[..|items| - 1]);
      var (key, value) := items[|items| - 1];
      if key == "id" || !Bindable(value) then m else m[key := value]
  }

  /** Entry `j` is the last one that binds `k`. */
  predicate LastBinding(items: seq<(string, Value)>, k: string, j: int) {
    && 0 <= j < |items| && items[j].0 == k && Bindable(items[j].1)
    && forall i :: j < i < |items| ==> items[i].0 != k || !Bindable(items[i].1)
  }

  /** An attribute exists exactly for `value` and for every key other than
      "id" that some entry binds to a str, int or float. */
  lemma {:induction false} AttributeKeys(items: seq<(string, Value)>, k: string)
    ensures k in Attributes(items) <==>
      k == "value" || (k != "id" && exists i :: 0 <= i < |items| && items[i].0 == k && Bindable(items[i].1))
  {
    if items != [] {
      var init := items[..|items| - 1];
      AttributeKeys(init, k);
      if k != "id" && (exists i :: 0 <= i < |init| && init[i].0 == k && Bindable(init[i].1)) {
        var i :| 0 <= i < |init| && init[i].0 == k && Bindable(init[i].1);
        assert items[i] == init[i];
      }
      if exists i :: 0 <= i < |items| && items[i].0 == k && Bindable(items[i].1) {
        var i :| 0 <= i < |items| && items[i].0 == k && Bindable(items[i].1);
        if i < |init| {
          assert init[i] == items[i];
        }
      }
    }
  }

  /** A bound attribute holds the value of the last entry that binds it. */
  lemma {:induction false} AttributeLastWins(items: seq<(string, Value)>, k: string, j: int)
    requires k != "id" && LastBinding(items, k, j)
    ensures k in Attributes(items) && Attributes(items)[k] == items[j].1
  {
    var n := |items| - 1;
    var init := items[..n];
    if j < n {
      assert LastBinding(init, k, j) by {
        forall i | j < i < |init| ensures init[i].0 != k || !Bindable(init[i].1) {
          assert init[i] == items[i];
        }
      }
      AttributeLastWins(init, k, j);
      assert items[n].0 != k || !Bindable(items[n].1);
    }
  }

  /** Without an entry binding `value`, it stays None. */
  lemma {:induction false} ValueDefault(items: seq<(string, Value)>)
    requires forall i :: 0 <= i < |items| ==> items[i].0 != "value" || !Bindable(items[i].1)
    ensures Attributes(items)["value"] == Null
  {
    if items != [] {
      var init := items[..|items| - 1];
      assert forall i :: 0 <= i < |init| ==> init[i] == items[i];
      ValueDefault(init);
    }
  }

  /** What `repr()` of the parameter yields: "" for a falsy value, the value
      itself for a non-empty str; `__repr__` returning an int or a float makes
      Python raise TypeError. */
  datatype ReprResult = Text(s: string) | ReprTypeError

  function ReprOf(v: Value): (r: ReprResult)
    ensures r == Text("") <==> !Truthy(v)
    ensures r.ReprTypeError? <==> Truthy(v) && !v.Str?
    ensures r.Text? && r.s != "" ==> v == Str(r.s)
  {
    if !Truthy(v) then Text("")
    else if v.Str? then Text(v.s)
    else ReprTypeError
  }

  class RecordParameter {
    var attributes: map<string, Value>

    predicate Valid()
      reads this
    {
      "value" in attributes
    }

    /** `__init__`: sets `value` to None, then binds the entries in order. */
    constructor (paramDict: seq<(string, Value)>)
      ensures Valid() && attributes == Attributes(paramDict)
    {
      attributes := map["value" := Null];
      new;
      var i := 0;
      while i < |paramDict|
        invariant 0 <= i <= |paramDict|
        invariant attributes == Attributes(paramDict[..i])
      {
        assert paramDict[..i + 1][..i] == paramDict[..i];
        var (key, value) := paramDict[i];
        i := i + 1;
        if key == "id" {
          continue;
        }
        if Bindable(value) {
          attributes := attributes[key := value];
        }
      }
      assert paramDict[..i] == paramDict;
    }

    /** `__repr__` of this parameter. */
    function Repr(): (r: ReprResult)
      reads this
      requires Valid()
      ensures r.Text? && r.s != "" ==> attributes["value"] == Str(r.s)
      ensures r == Text("") <==> !Truthy(attributes["value"])
      ensures r.ReprTypeError? <==> Truthy(attributes["value"]) && !attributes["value"].Str?
    {
      ReprOf(attributes["value"])
    }
  }
}
