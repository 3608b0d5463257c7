/** Form.serializeElements for single-valued controls. */
module FormElements {
  import opened Options
  import opened TextLists
  import opened QueryString

  /** A control; its value is None for an unchecked box. */
  datatype Control = Control(disabled: bool, name: string, kind: string, value: Option<string>)

  /** options.submit: not given, false, or the name of a button */
  datatype Submit = AnySubmit | NoSubmit | Named(name: string)

  /** Whether a control counts, given whether a submit button has counted already. */
  predicate Counts(c: Control, submit: Submit, submitted: bool) {
    && !c.disabled && c.name != "" && c.value.Some?
    && (c.kind != "submit" ||
        (!submitted && !submit.NoSubmit? && (submit.Named? && submit.name != "" ==> c.name == submit.name)))
  }

  /** The controls that count, in their order. */
  function Successful(controls: seq<Control>, submit: Submit, submitted: bool): seq<Control> {
    if controls == [] then []
    else
      var c := controls[0];
      if Counts(c, submit, submitted) then [c] + Successful(controls[1..], submit, submitted || c.kind == "submit")
      else Successful(controls[1..], submit, submitted)
  }

  /** The values that the controls of one name have, in order. */
  function ValuesFor(controls: seq<Control>, name: string): seq<Option<string>> {
    if controls == [] then []
    else (if controls[0].name == name then [controls[0].value] else []) + ValuesFor(controls[1..], name)
  }

  lemma {:induction false} ValuesForAppend(a: seq<Control>, b: seq<Control>, name: string)
    ensures ValuesFor(a + b, name) == ValuesFor(a, name) + ValuesFor(b, name)
  {
    if a == [] {
      assert a + b == b;
    } else {
      assert (a + b)[0] == a[0] && (a + b)[1..] == a[1..] + b;
      ValuesForAppend(a[1..], b, name);
      var head := if a[0].name == name then [a[0].value] else [];
      assert head + (ValuesFor(a[1..], name) + ValuesFor(b, name)) == head + ValuesFor(a[1..], name) + ValuesFor(b, name);
    }
  }

  /** Each name holds the values of its controls: a lone value as itself, several as an array. */
  ghost predicate Holds(data: Hash, controls: seq<Control>) {
    forall k :: (k in data <==> ValuesFor(controls, k) != [])
                && (k in data ==> data[k] == EntryOf(ValuesFor(controls, k)))
  }

  lemma HoldsNothing()
    ensures Holds(map[], [])
  {}

  lemma HoldsOneMore(data: Hash, controls: seq<Control>, c: Control)
    requires Holds(data, controls)
    ensures Holds(Put(data, c.name, c.value), controls + [c])
  {
    hide Put;
    var more := Put(data, c.name, c.value);
    PutMeans(data, c.name, c.value, ValuesFor(controls, c.name));
    forall k
      ensures k in more <==> ValuesFor(controls + [c], k) != []
      ensures k in more ==> more[k] == EntryOf(ValuesFor(controls + [c], k))
    {
      ValuesForAppend(controls, [c], k);
      ValuesForOne(c, k);
      assert ValuesFor(controls, k) + [] == ValuesFor(controls, k);
    }
  }

  lemma ValuesForOne(c: Control, k: string)
    ensures ValuesFor([c], k) == if c.name == k then [c.value] else []
  {
    var none: seq<Control> := [c][1..];
    assert none == [] && ValuesFor(none, k) == [];
  }

  lemma PutMeans(data: Hash, key: string, value: Option<string>, seen: seq<Option<string>>)
    requires key in data <==> seen != []
    requires key in data ==> data[key] == EntryOf(seen)
    ensures Put(data, key, value) == data[key := EntryOf(seen + [value])]
  {
    if key in data {
      PutExtends(data, key, seen, value);
    } else {
      assert seen + [value] == [value];
    }
  }

  /** serializeElements with the hash option, filling its result in place. */
  method SerializeElements(controls: seq<Control>, submit: Submit) returns (data: Hash)
    ensures Holds(data, Successful(controls, submit, false))
  {
    data := map[];
    var submitted := false;
    ghost var taken: seq<Control> := [];
    HoldsNothing();
    for i := 0 to |controls|
      invariant Holds(data, taken)
      invariant Successful(controls, submit, false) == taken + Successful(controls[i..], submit, submitted)
    {
      hide Holds, Put, Counts;
      var c := controls[i];
      ghost var before := taken;
      assert controls[i..][0] == c && controls[i..][1..] == controls[i + 1..];
      if Counts(c, submit, submitted) {
        HoldsOneMore(data, taken, c);
        data := Put(data, c.name, c.value);
        taken := taken + [c];
        submitted := submitted || c.kind == "submit";
        assert before + ([c] + Successful(controls[i + 1..], submit, submitted))
            == taken + Successful(controls[i + 1..], submit, submitted);
      }
    }
    assert taken + [] == taken;
  }

  function Submits(controls: seq<Control>): nat {
    if controls == [] then 0 else (if controls[0].kind == "submit" then 1 else 0) + Submits(controls[1..])
  }

  /** Of several submit buttons at most one is sent. */
  lemma {:induction false} OneSubmit(controls: seq<Control>, submit: Submit, submitted: bool)
    ensures Submits(Successful(controls, submit, submitted)) <= if submitted || submit.NoSubmit? then 0 else 1
    ensures forall i :: 0 <= i < |Successful(controls, submit, submitted)|
                        ==> var c := Successful(controls, submit, submitted)[i]; c.name != "" && c.value.Some? && !c.disabled
  {
    if controls != [] {
      OneSubmit(controls[1..], submit, submitted);
      OneSubmit(controls[1..], submit, submitted || controls[0].kind == "submit");
    }
  }

  /** The controls that hold something to send: enabled, named, with a value */
  predicate Fit(c: Control) {
    c.disabled == false && c.name != "" && c.value != None
  }

  function PlainOnes(controls: seq<Control>): seq<Control> {
    if controls == [] then []
    else (if Fit(controls[0]) && controls[0].kind != "submit" then [controls[0]] else []) + PlainOnes(controls[1..])
  }

  /** The buttons that may be sent: any, or those of the name that is asked for, or none */
  function Buttons(controls: seq<Control>, submit: Submit): seq<Control> {
    if controls == [] then []
    else
      var c := controls[0];
      var meant := match submit
                   case AnySubmit => true
                   case NoSubmit => false
                   case Named(name) => name == "" || name == c.name;
      (if Fit(c) && c.kind == "submit" && meant then [c] else []) + Buttons(controls[1..], submit)
  }

  lemma {:induction false} PlainOnesCount(controls: seq<Control>, submit: Submit, submitted: bool)
    ensures PlainOnes(Successful(controls, submit, submitted)) == PlainOnes(controls)
  {
    if controls != [] {
      var c, rest := controls[0], controls[1..];
      PlainOnesCount(rest, submit, submitted);
      PlainOnesCount(rest, submit, submitted || c.kind == "submit");
      var tail := Successful(rest, submit, submitted || c.kind == "submit");
      assert ([c] + tail)[0] == c && ([c] + tail)[1..] == tail;
    }
  }

  lemma {:induction false} FirstButtonCounts(controls: seq<Control>, submit: Submit, submitted: bool)
    ensures Buttons(Successful(controls, submit, submitted), AnySubmit)
         == var buttons := Buttons(controls, submit);
            if submitted || buttons == [] then [] else [buttons[0]]
  {
    if controls != [] {
      var c, rest := controls[0], controls[1..];
      FirstButtonCounts(rest, submit, submitted);
      FirstButtonCounts(rest, submit, submitted || c.kind == "submit");
      var tail := Successful(rest, submit, submitted || c.kind == "submit");
      assert ([c] + tail)[0] == c && ([c] + tail)[1..] == tail;
    }
  }

  /** Of the controls, those that count are all plain ones that hold something, in order, and the first
      of the buttons that may be sent. */
  lemma SuccessfulExactly(controls: seq<Control>, submit: Submit)
    ensures var counted := Successful(controls, submit, false); var buttons := Buttons(controls, submit);
            && PlainOnes(counted) == PlainOnes(controls)
            && Buttons(counted, AnySubmit) == (if buttons == [] then [] else [buttons[0]])
            && |counted| == |PlainOnes(counted)| + |Buttons(counted, AnySubmit)|
  {
    PlainOnesCount(controls, submit, false);
    FirstButtonCounts(controls, submit, false);
    OneSubmit(controls, submit, false);
    NoOthers(Successful(controls, submit, false));
  }

  lemma {:induction false} NoOthers(controls: seq<Control>)
    requires forall i :: 0 <= i < |controls| ==> Fit(controls[i])
    ensures |controls| == |PlainOnes(controls)| + |Buttons(controls, AnySubmit)|
  {
    if controls != [] {
      assert Fit(controls[0]);
      assert forall i :: 0 <= i < |controls[1..]| ==> controls[1..][i] == controls[i + 1];
      NoOthers(controls[1..]);
    }
  }

  lemma {:induction false} NoValuesWithoutName(controls: seq<Control>)
    requires forall i :: 0 <= i < |controls| ==> controls[i].name != ""
    ensures ValuesFor(controls, "") == []
  {
    if controls != [] {
      assert controls[0].name != "";
      NoValuesWithoutName(controls[1..]);
    }
  }

  /** Main result: the query string of any form of single-valued controls, printed in any order of
      the names, is read back as the hash that was built from the form. */
  lemma FormRoundTrip(data: Hash, controls: seq<Control>, submit: Submit, order: seq<string>)
    requires Holds(data, Successful(controls, submit, false)) && Enumerates(order, data)
    ensures ParamsOf(ToQueryString(data, order)) == Some(data)
  {
    OneSubmit(controls, submit, false);
    NoValuesWithoutName(Successful(controls, submit, false));
    RoundTripExactly(data, order);
  }
}
