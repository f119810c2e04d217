/**
  The "print any value" routine the logger uses when writing to its file:
  `_print_unlocked`, which picks a rendering by the capabilities the value
  has, and `_adHocPrint_unlocked`, which renders a value from the shape its
  reflection mirror shows.

  Swift answers "what is this value?" at run time (`as?` casts, `Mirror`,
  `_getEnumCaseName`, `_opaqueSummary`); here a value states those answers
  explicitly. The standard library's `_debugPrint_unlocked` and Optional's
  `debugDescription`, whose code is not part of this model, are left
  uninterpreted as the two functions of a `Runtime`.
*/
module Formatter {

  import opened Options
  import opened Strings

  /** A Swift type as `_typeName` names it, qualified (`App.Point`) or not (`Point`). */
  datatype TypeName = TypeName(qualified: string, unqualified: string)

  /** `_typeName(type, qualified: q)`. */
  function TypeText(t: TypeName, q: bool): string
  {
    if q then t.qualified else t.unqualified
  }

  /** One child of a mirror: its label, if it has one, and its value. */
  datatype Child = Child(name: Option<string>, value: Value)

  /**
    What the casts in `_print_unlocked` find: the text `write(to:)` streams for a
    `TextOutputStreamable`, the `description` of a `CustomStringConvertible`, the
    `debugDescription` of a `CustomDebugStringConvertible`; `None` when the value
    does not conform.
  */
  datatype Caps = Caps(streamed: Option<string>, description: Option<string>, debugDescription: Option<string>)

  const NoCaps := Caps(None, None, None)

  /**
    What `Mirror(reflecting:)` shows of a value: its display style with the
    children, or, for a value with no display style, whether it is a metatype
    and otherwise the runtime's opaque summary of its type (`None` when that
    summary is missing or not valid UTF-8).
  */
  datatype Mirror =
    | OptionalStyle(child: Option<Value>)
    | TupleStyle(children: seq<Child>)
    | StructStyle(subject: TypeName, children: seq<Child>)
      /** `caseName` is `None` when `_getEnumCaseName` yields nothing valid; `payload` is the first child. */
    | EnumStyle(subject: TypeName, caseName: Option<string>, payload: Option<Value>)
      /** The remaining display styles: class, collection, dictionary, set. */
    | OtherStyle(subject: TypeName)
    | Metatype(denoted: TypeName)
    | Unstyled(subject: TypeName, summary: Option<string>)

  /** A value handed to `print`: a `String`, an `Optional`, or anything else. */
  datatype Value =
    | Str(text: string)
    | Optional(wrapped: Option<Value>)
    | Other(caps: Caps, mirror: Mirror)

  /** The standard-library routines this model does not interpret. */
  datatype Runtime = Runtime(
    /** `_debugPrint_unlocked(value, &target)`: the text it writes. */
    debugPrint: Value -> string,
    /** Optional's `debugDescription`. */
    optionalDebugDescription: Option<Value> -> string)

  /** The first present entry of `opts`, if any. */
  function FirstPresent(opts: seq<Option<string>>): (r: Option<string>)
    ensures r.None? <==> forall i :: 0 <= i < |opts| ==> opts[i].None?
    ensures r.Some? ==> exists i :: 0 <= i < |opts| && opts[i] == r && forall j :: 0 <= j < i ==> opts[j].None?
  {
    if |opts| == 0 then None
    else if opts[0].Some? then opts[0]
    else
      var r := FirstPresent(opts[1..]);
      assert r.Some? ==> exists i :: 1 <= i < |opts| && opts[i] == r && forall j :: 1 <= j < i ==> opts[j].None? by {
        if r.Some? {
          var k :| 0 <= k < |opts[1..]| && opts[1..][k] == r && forall j :: 0 <= j < k ==> opts[1..][j].None?;
          assert opts[k + 1] == r;
          assert forall j :: 1 <= j < k + 1 ==> opts[j].None? by {
            forall j | 1 <= j < k + 1 ensures opts[j].None? {
              assert opts[1..][j - 1] == opts[j];
            }
          }
        }
      }
      r
  }

  /** A tuple child shows its label only when the label is present, non-empty and not positional (".0"). */
  predicate ShowsLabel(name: Option<string>)
  {
    name.Some? && |name.value| > 0 && name.value[0] != '.'
  }

  /** One element of a tuple's rendering. */
  function TupleField(c: Child, rt: Runtime): string
  {
    (if ShowsLabel(c.name) then c.name.value + ": " else "") + rt.debugPrint(c.value)
  }

  function TupleFields(cs: seq<Child>, rt: Runtime): (r: seq<string>)
    ensures |r| == |cs|
  {
    seq(|cs|, i requires 0 <= i < |cs| => TupleField(cs[i], rt))
  }

  /** A tuple: its fields, comma-separated, in parentheses. */
  function TupleText(cs: seq<Child>, rt: Runtime): (r: string)
    ensures |r| >= 2 && r[0] == '(' && r[|r| - 1] == ')'
  {
    "(" + Join(TupleFields(cs, rt), ", ") + ")"
  }

  /** The children that carry a label, in order. */
  function Labelled(cs: seq<Child>): (r: seq<Child>)
    ensures |r| <= |cs|
    ensures forall i :: 0 <= i < |r| ==> r[i].name.Some?
    ensures forall c :: c in r <==> c in cs && c.name.Some?
    ensures (forall i :: 0 <= i < |cs| ==> cs[i].name.Some?) ==> r == cs
  {
    if |cs| == 0 then []
    else
      var init := cs[..|cs| - 1];
      var last := cs[|cs| - 1];
      assert cs == init + [last];
      Labelled(init) + (if last.name.Some? then [last] else [])
  }

  /** Filtering a concatenation filters each part and keeps them in order. */
  lemma {:induction false} LabelledAppend(a: seq<Child>, b: seq<Child>)
    ensures Labelled(a + b) == Labelled(a) + Labelled(b)
    decreases |b|
  {
    if |b| == 0 {
      assert a + b == a;
    } else {
      var init := b[..|b| - 1];
      var last := b[|b| - 1];
      assert (a + b)[..|a + b| - 1] == a + init;
      assert (a + b)[|a + b| - 1] == last;
      LabelledAppend(a, init);
    }
  }

  /** The `label: value` fields of a struct's rendering: one for each labelled child, in order. */
  function StructFields(cs: seq<Child>, rt: Runtime): (r: seq<string>)
    ensures |r| <= |cs|
  {
    if |cs| == 0 then []
    else
      var init := cs[..|cs| - 1];
      var last := cs[|cs| - 1];
      StructFields(init, rt) + (if last.name.Some? then [last.name.value + ": " + rt.debugPrint(last.value)] else [])
  }

  /** The struct's fields are exactly the labelled children, in order, each written `label: value`. */
  lemma {:induction false} StructFieldsLabelled(cs: seq<Child>, rt: Runtime)
    ensures var r := StructFields(cs, rt); var ls := Labelled(cs);
      |r| == |ls| && forall i :: 0 <= i < |r| ==> r[i] == ls[i].name.value + ": " + rt.debugPrint(ls[i].value)
    decreases |cs|
  {
    if |cs| > 0 {
      StructFieldsLabelled(cs[..|cs| - 1], rt);
    }
  }

  /** A struct: its type name, then its labelled fields, comma-separated, in parentheses. */
  function StructText(t: TypeName, cs: seq<Child>, rt: Runtime, isDebugPrint: bool): string
  {
    TypeText(t, isDebugPrint) + "(" + Join(StructFields(cs, rt), ", ") + ")"
  }

  /** Whether the mirror of `v` has the tuple display style. */
  predicate IsTuple(v: Value)
  {
    v.Other? && v.mirror.TupleStyle?
  }

  /** An enum case: its name (qualified by the type in debug mode) or the type's name, then any payload. */
  function EnumText(t: TypeName, caseName: Option<string>, payload: Option<Value>, rt: Runtime, isDebugPrint: bool): string
  {
    var head :=
      match caseName
      case Some(n) => (if isDebugPrint then TypeText(t, true) + "." else "") + n
      case None => TypeText(t, isDebugPrint);
    head +
      match payload
      case None => ""
      case Some(p) => if IsTuple(p) then rt.debugPrint(p) else "(" + rt.debugPrint(p) + ")"
  }

  /**
    `_adHocPrint_unlocked`: the rendering read off the mirror. Tuples and
    structs are parenthesised, a struct after its type name; an enum case
    without payload is its name; the remaining display styles give the
    qualified type name even in display mode; a metatype gives the name of the
    type it denotes; an unstyled value its opaque summary, if there is one.
  */
  function AdHocPrint(m: Mirror, rt: Runtime, isDebugPrint: bool): (r: string)
    ensures m.OptionalStyle? ==> r == rt.debugPrint(if m.child.Some? then m.child.value else Str("nil"))
    ensures m.TupleStyle? ==> |r| >= 2 && r[0] == '(' && r[|r| - 1] == ')'
    ensures m.StructStyle? ==> var t := TypeText(m.subject, isDebugPrint);
      |r| >= |t| + 2 && r[..|t| + 1] == t + "(" && r[|r| - 1] == ')'
    ensures m.EnumStyle? && m.caseName.Some? && m.payload.None? ==>
      r == (if isDebugPrint then m.subject.qualified + "." else "") + m.caseName.value
    ensures m.OtherStyle? ==> r == m.subject.qualified
    ensures m.Metatype? ==> r == TypeText(m.denoted, isDebugPrint)
    ensures m.Unstyled? ==> r == if m.summary.Some? then m.summary.value else m.subject.qualified
  {
    match m
    case OptionalStyle(child) =>
      (match child
       case Some(v) => rt.debugPrint(v)
       case None => rt.debugPrint(Str("nil")))
    case TupleStyle(cs) => TupleText(cs, rt)
    case StructStyle(t, cs) =>
      var r := StructText(t, cs, rt, isDebugPrint);
      assert r == (TypeText(t, isDebugPrint) + "(") + (Join(StructFields(cs, rt), ", ") + ")");
      r
    case EnumStyle(t, caseName, payload) => EnumText(t, caseName, payload, rt, isDebugPrint)
    case OtherStyle(t) => TypeText(t, true)
    case Metatype(denoted) => TypeText(denoted, isDebugPrint)
    case Unstyled(t, summary) =>
      (match summary
       case Some(s) => s
       case None => TypeText(t, true))
  }

  /** The first present of three options. */
  lemma FirstPresentOfThree(a: Option<string>, b: Option<string>, c: Option<string>)
    ensures FirstPresent([a, b, c]) == if a.Some? then a else if b.Some? then b else c
  {
    var opts := [a, b, c];
    assert opts[1..] == [b, c];
    assert opts[1..][1..] == [c];
    assert opts[1..][1..][1..] == [];
    if a.None? {
      assert FirstPresent(opts) == FirstPresent(opts[1..]);
      if b.None? {
        assert FirstPresent(opts[1..]) == FirstPresent(opts[1..][1..]);
        assert FirstPresent(opts[1..][1..]) == if c.Some? then c else FirstPresent(opts[1..][1..][1..]);
      }
    }
  }

  // ---------------------------------------------------------------- dispatch

  /**
    `_print_unlocked`: the text `print` writes for one value. A `String` is
    written verbatim, an optional through Optional's debug description; any
    other value by the first capability it has, in the order stream,
    description, debug description, and only without any of them from its
    mirror, in display mode.
  */
  function PrintUnlocked(v: Value, rt: Runtime): (r: string)
    ensures v.Str? ==> r == v.text
    ensures v.Optional? ==> r == rt.optionalDebugDescription(v.wrapped)
    ensures v.Other? ==>
      var first := FirstPresent([v.caps.streamed, v.caps.description, v.caps.debugDescription]);
      r == if first.Some? then first.value else AdHocPrint(v.mirror, rt, false)
  {
    match v
    case Optional(w) => rt.optionalDebugDescription(w)
    case Str(s) => s
    case Other(caps, m) =>
      FirstPresentOfThree(caps.streamed, caps.description, caps.debugDescription);
      if caps.streamed.Some? then caps.streamed.value
      else if caps.description.Some? then caps.description.value
      else if caps.debugDescription.Some? then caps.debugDescription.value
      else AdHocPrint(m, rt, false)
  }

  /** The mirror matters only for a value with no capability at all. */
  lemma MirrorOnlyWithoutCaps(caps: Caps, m1: Mirror, m2: Mirror, rt: Runtime)
    requires caps != NoCaps
    ensures PrintUnlocked(Other(caps, m1), rt) == PrintUnlocked(Other(caps, m2), rt)
  {
  }

  // ---------------------------------------------------------------- shapes

  /** Optionals, tuples, the remaining styles and opaque values render the same in both modes. */
  lemma ModeMattersOnlyForNames(m: Mirror, rt: Runtime)
    requires m.OptionalStyle? || m.TupleStyle? || m.OtherStyle? || m.Unstyled?
    ensures AdHocPrint(m, rt, true) == AdHocPrint(m, rt, false)
  {
  }

  /** A tuple whose children have no shown labels renders as the children's debug texts, comma-separated, in parentheses. */
  lemma TupleOfUnlabelled(cs: seq<Child>, rt: Runtime)
    requires forall i :: 0 <= i < |cs| ==> !ShowsLabel(cs[i].name)
    ensures AdHocPrint(TupleStyle(cs), rt, false)
         == "(" + Join(seq(|cs|, i requires 0 <= i < |cs| => rt.debugPrint(cs[i].value)), ", ") + ")"
  {
    forall i | 0 <= i < |cs|
      ensures TupleField(cs[i], rt) == rt.debugPrint(cs[i].value)
    {
      assert "" + rt.debugPrint(cs[i].value) == rt.debugPrint(cs[i].value);
    }
    assert TupleFields(cs, rt) == seq(|cs|, i requires 0 <= i < |cs| => rt.debugPrint(cs[i].value));
  }

  /** A label that is empty or positional is never shown: dropping it does not change a tuple's text. */
  lemma HiddenLabelsDroppable(cs: seq<Child>, rt: Runtime)
    ensures var stripped := seq(|cs|, i requires 0 <= i < |cs| =>
                              if ShowsLabel(cs[i].name) then cs[i] else Child(None, cs[i].value));
      AdHocPrint(TupleStyle(stripped), rt, false) == AdHocPrint(TupleStyle(cs), rt, false)
  {
    var stripped := seq(|cs|, i requires 0 <= i < |cs| =>
                      if ShowsLabel(cs[i].name) then cs[i] else Child(None, cs[i].value));
    assert TupleFields(stripped, rt) == TupleFields(cs, rt);
  }

  /** Unlabelled children are left out of a struct: rendering only the labelled ones gives the same text. */
  lemma {:induction false} StructSkipsUnlabelled(cs: seq<Child>, rt: Runtime)
    ensures StructFields(Labelled(cs), rt) == StructFields(cs, rt)
  {
    if |cs| > 0 {
      var init := cs[..|cs| - 1];
      var last := cs[|cs| - 1];
      StructSkipsUnlabelled(init, rt);
      var l := Labelled(cs);
      if last.name.Some? {
        assert l == Labelled(init) + [last];
        assert l[..|l| - 1] == Labelled(init);
        assert l[|l| - 1] == last;
      } else {
        assert l == Labelled(init);
      }
    }
  }

  /** Without labelled children a struct has no fields to show. */
  lemma {:induction false} NoLabelsNoFields(cs: seq<Child>, rt: Runtime)
    requires forall i :: 0 <= i < |cs| ==> cs[i].name.None?
    ensures StructFields(cs, rt) == []
  {
    if |cs| > 0 {
      NoLabelsNoFields(cs[..|cs| - 1], rt);
    }
  }

  /** A struct with no labelled children renders as its type name and "()". */
  lemma StructWithoutLabels(t: TypeName, cs: seq<Child>, rt: Runtime, isDebugPrint: bool)
    requires forall i :: 0 <= i < |cs| ==> cs[i].name.None?
    ensures AdHocPrint(StructStyle(t, cs), rt, isDebugPrint) == TypeText(t, isDebugPrint) + "()"
  {
    NoLabelsNoFields(cs, rt);
  }

  /** The debug form of an enum with a known case name is the display form qualified by the type name. */
  lemma EnumDebugQualifies(t: TypeName, n: string, payload: Option<Value>, rt: Runtime)
    ensures AdHocPrint(EnumStyle(t, Some(n), payload), rt, true)
         == t.qualified + "." + AdHocPrint(EnumStyle(t, Some(n), payload), rt, false)
  {
  }

  /** An enum whose case name is unavailable renders as if the case were named after its type. */
  lemma EnumUnknownCase(t: TypeName, payload: Option<Value>, rt: Runtime, isDebugPrint: bool)
    ensures AdHocPrint(EnumStyle(t, None, payload), rt, isDebugPrint)
         == AdHocPrint(EnumStyle(TypeName(t.qualified, t.qualified), Some(TypeText(t, isDebugPrint)), payload), rt, false)
  {
  }

  /**
    In display mode an enum case without payload is its bare name; a tuple
    payload follows the name directly, any other payload is parenthesised.
  */
  lemma EnumPayloadPlacement(t: TypeName, n: string, payload: Option<Value>, rt: Runtime)
    ensures var r := AdHocPrint(EnumStyle(t, Some(n), payload), rt, false);
      && (payload.None? ==> r == n)
      && (payload.Some? && IsTuple(payload.value) ==> r == n + rt.debugPrint(payload.value))
      && (payload.Some? && !IsTuple(payload.value) ==> r == n + "(" + rt.debugPrint(payload.value) + ")")
  {
  }

  // ---------------------------------------------------------------- loops

  /** One more child adds its field at the end. */
  lemma TupleFieldsStep(cs: seq<Child>, i: nat, rt: Runtime)
    requires i < |cs|
    ensures TupleFields(cs[..i + 1], rt) == TupleFields(cs[..i], rt) + [TupleField(cs[i], rt)]
  {
  }

  /** One more child adds a field at the end exactly when it is labelled. */
  lemma StructFieldsStep(cs: seq<Child>, i: nat, rt: Runtime)
    requires i < |cs|
    ensures StructFields(cs[..i + 1], rt)
         == StructFields(cs[..i], rt) + (if cs[i].name.Some? then [cs[i].name.value + ": " + rt.debugPrint(cs[i].value)] else [])
  {
    assert cs[..i + 1][..i] == cs[..i];
  }

  /** One element of a tuple as the loop body writes it: the label and ": " if shown, then the value. */
  method WriteTupleField(c: Child, rt: Runtime) returns (piece: string)
    ensures piece == TupleField(c, rt)
  {
    piece := "";
    if c.name.Some? {
      var name := c.name.value;
      if |name| > 0 && name[0] != '.' {
        piece := name + ": ";
      }
    }
    piece := piece + rt.debugPrint(c.value);
  }

  /** The tuple branch of `_adHocPrint_unlocked`, written as its loop with a `first` flag. */
  method WriteTuple(cs: seq<Child>, rt: Runtime) returns (out: string)
    ensures out == AdHocPrint(TupleStyle(cs), rt, false)
  {
    out := "(";
    var first := true;
    var i := 0;
    while i < |cs|
      invariant 0 <= i <= |cs|
      invariant first <==> i == 0
      invariant out == "(" + Join(TupleFields(cs[..i], rt), ", ")
    {
      var fields := TupleFields(cs[..i], rt);
      TupleFieldsStep(cs, i, rt);
      var piece := WriteTupleField(cs[i], rt);
      if first {
        assert fields + [piece] == [piece];
        first := false;
        out := out + piece;
      } else {
        JoinSnoc(fields, piece, ", ");
        assert "(" + Join(fields + [piece], ", ") == out + ", " + piece;
        out := out + ", " + piece;
      }
      i := i + 1;
    }
    assert cs[..i] == cs;
    out := out + ")";
  }

  /** The struct branch of `_adHocPrint_unlocked`, written as its loop with a `first` flag. */
  method WriteStruct(t: TypeName, cs: seq<Child>, rt: Runtime, isDebugPrint: bool) returns (out: string)
    ensures out == AdHocPrint(StructStyle(t, cs), rt, isDebugPrint)
  {
    var head := TypeText(t, isDebugPrint) + "(";
    out := head;
    var first := true;
    var i := 0;
    while i < |cs|
      invariant 0 <= i <= |cs|
      invariant first <==> |StructFields(cs[..i], rt)| == 0
      invariant out == head + Join(StructFields(cs[..i], rt), ", ")
    {
      var fields := StructFields(cs[..i], rt);
      StructFieldsStep(cs, i, rt);
      var c := cs[i];
      if c.name.Some? {
        var piece := c.name.value + ": " + rt.debugPrint(c.value);
        if first {
          assert fields + [piece] == [piece];
          assert out == head;
          first := false;
          out := out + piece;
        } else {
          JoinSnoc(fields, piece, ", ");
          assert head + Join(fields + [piece], ", ") == out + ", " + piece;
          out := out + ", " + piece;
        }
      } else {
        assert fields + [] == fields;
      }
      i := i + 1;
    }
    assert cs[..i] == cs;
    out := out + ")";
  }
}
