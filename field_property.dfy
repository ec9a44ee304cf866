/** A property that wraps one field of an entity class: the names under which
    it loads, and the index, unindex and ignore-save conditions attached to it,
    all validated once, when the property is built. */
module FieldProperties {
  import opened Wrappers

  /** A Java class, as far as the assignability checks need it. */
  type TypeName = string

  /** The assignability relation `isAssignableFrom(to, from)` between classes. */
  type Assignability = (TypeName, TypeName) -> bool

  /** A condition class `If<V, P>`: whether it declares a `(Class, Field)`
      constructor and a no-arg constructor, and its two type arguments. */
  datatype IfClass = IfClass(
    name: string,
    hasClassFieldConstructor: bool,
    hasNoArgConstructor: bool,
    valueType: TypeName,
    entityType: TypeName)

  /** The condition that always holds; an ignore-save list of only this one is unconditional. */
  const ALWAYS: string := "com.googlecode.objectify.condition.Always"

  /** `@AlsoLoad(value)`; the value list and its entries may be null. */
  datatype AlsoLoad = AlsoLoad(value: Option<seq<Option<string>>>)

  /** A field: its name, its class, its declaring class and the annotations the
      property reads (`None`: the annotation is absent). */
  datatype Field = Field(
    name: string,
    fieldType: TypeName,
    declaringClass: TypeName,
    alsoLoad: Option<AlsoLoad>,
    index: Option<seq<IfClass>>,
    unindex: Option<seq<IfClass>>,
    ignoreSave: Option<seq<IfClass>>)

  /** Which constructor built a condition. */
  datatype Construction = ClassFieldConstructor(examinedClass: TypeName, field: Field) | NoArgConstructor

  /** A condition instance. */
  datatype If = If(ifClass: IfClass, via: Construction)

  /** The `IllegalStateException`s thrown while building a property. */
  datatype Error =
    | AlsoLoadWithoutValues
    | IllegalAlsoLoadValue(value: Option<string>)
    | IndexAndUnindex
    | NoUsableConstructor(ifClass: string)
    | FieldTypeMismatch(ifClass: string, fieldType: TypeName, valueType: TypeName)
    | ContainerTypeMismatch(ifClass: string, examinedClass: TypeName, entityType: TypeName)

  datatype FieldProperty = FieldProperty(
    field: Field,
    names: set<string>,
    indexConditions: Option<seq<If>>,
    unindexConditions: Option<seq<If>>,
    ignoreSaveConditions: Option<seq<If>>,
    hasIgnoreSaveConditions: bool)
  {
    /** What construction guarantees of every property. */
    predicate Valid() {
      && field.name in names
      && !(indexConditions.Some? && unindexConditions.Some?)
      && (hasIgnoreSaveConditions ==> ignoreSaveConditions.Some?)
    }

    function GetName(): string { field.name }

    /** The field's own name, then every alternate name. */
    function GetAllNames(): (r: set<string>)
      requires Valid()
      ensures GetName() in r
    {
      names
    }

    /** True only for a conditional ignore-save policy. */
    function HasIgnoreSaveConditions(): (r: bool)
      requires Valid()
      ensures r ==> ignoreSaveConditions.Some?
    {
      hasIgnoreSaveConditions
    }
  }

  /** Java's `String.trim`: drops leading and trailing characters up to U+0020. */
  function TrimStart(s: string): (r: string)
    ensures |r| <= |s| && r == s[|s| - |r|..]
    ensures IsBlank(s[..|s| - |r|])
    ensures r == [] || r[0] > ' '
  {
    if s != [] && s[0] <= ' ' then
      assert forall i | 1 <= i < |s| :: s[1..][i - 1] == s[i];
      TrimStart(s[1..])
    else s
  }

  function TrimEnd(s: string): (r: string)
    ensures |r| <= |s| && r == s[..|r|]
    ensures IsBlank(s[|r|..])
    ensures r == [] || r[|r| - 1] > ' '
  {
    if s != [] && s[|s| - 1] <= ' ' then
      var r := TrimEnd(s[..|s| - 1]);
      assert s[|r|..] == s[..|s| - 1][|r|..] + [s[|s| - 1]];
      r
    else s
  }

  /** `String.trim`: the part of the input between its leading and trailing
      characters up to U+0020, which starts and ends above U+0020 when non-empty. */
  function Trim(s: string): (r: string)
    ensures exists i | 0 <= i <= |s| - |r| :: r == s[i..i + |r|] && IsBlank(s[..i]) && IsBlank(s[i + |r|..])
    ensures r == [] || (r[0] > ' ' && r[|r| - 1] > ' ')
  {
    var t := TrimStart(s);
    var r := TrimEnd(t);
    SuffixSlices(s, t, |r|);
    r
  }

  /** The slices of a suffix `t` of `s` are slices of `s`, shifted by where `t` starts. */
  lemma SuffixSlices(s: string, t: string, n: nat)
    requires |t| <= |s| && t == s[|s| - |t|..] && n <= |t|
    ensures t[..n] == s[|s| - |t|..|s| - |t| + n]
    ensures t[n..] == s[|s| - |t| + n..]
  {
  }

  /** A string trims to nothing exactly when every character is at most U+0020. */
  lemma TrimEmptyIffBlank(s: string)
    ensures Trim(s) == [] <==> IsBlank(s)
  {
  }

  /** Every character is at most U+0020, so `trim` leaves nothing. */
  predicate IsBlank(s: string) {
    forall i | 0 <= i < |s| :: s[i] <= ' '
  }

  /** `@AlsoLoad` entries must be non-null and not blank. */
  predicate LegalAlsoLoadValue(v: Option<string>) {
    v.Some? && !IsBlank(v.value)
  }

  /** The entries of a present `@AlsoLoad` with a non-null value list. */
  function AlsoLoadValues(a: Option<AlsoLoad>): seq<Option<string>> {
    if a.Some? && a.value.value.Some? then a.value.value.value else []
  }

  /** `@AlsoLoad` is absent, or lists at least one entry and only legal ones. */
  predicate ValidAlsoLoad(a: Option<AlsoLoad>) {
    a.None? ||
    (a.value.value.Some? && |a.value.value.value| > 0 &&
     forall i | 0 <= i < |AlsoLoadValues(a)| :: LegalAlsoLoadValue(AlsoLoadValues(a)[i]))
  }

  /** The names carried by a list of non-null entries. */
  function NamesOf(vs: seq<Option<string>>): (r: set<string>)
    requires forall i | 0 <= i < |vs| :: vs[i].Some?
    ensures forall i | 0 <= i < |vs| :: vs[i].value in r
    ensures forall n | n in r :: Some(n) in vs
  {
    if vs == [] then {} else NamesOf(vs[..|vs| - 1]) + {vs[|vs| - 1].value}
  }

  /** The alternate names a valid `@AlsoLoad` adds. */
  function AlsoLoadNames(a: Option<AlsoLoad>): set<string>
    requires ValidAlsoLoad(a)
  {
    NamesOf(AlsoLoadValues(a))
  }

  /** `createIf`: the `(Class, Field)` constructor if the class has one, else
      the no-arg constructor, else an error. */
  function CreateIf(ifClass: IfClass, examinedClass: TypeName, field: Field): (r: Result<If, Error>)
    ensures r.Success? <==> ifClass.hasClassFieldConstructor || ifClass.hasNoArgConstructor
    ensures r.Success? ==> r.value.ifClass == ifClass
    ensures r.Success? ==> (r.value.via.ClassFieldConstructor? <==> ifClass.hasClassFieldConstructor)
    ensures r.Failure? ==> r.error == NoUsableConstructor(ifClass.name)
  {
    if ifClass.hasClassFieldConstructor then Success(If(ifClass, ClassFieldConstructor(examinedClass, field)))
    else if ifClass.hasNoArgConstructor then Success(If(ifClass, NoArgConstructor))
    else Failure(NoUsableConstructor(ifClass.name))
  }

  /** One step of `generateIfConditions`: build the condition, then check that
      its value type accepts the field's class and its entity type accepts the
      examined class. */
  function CheckIf(ifClass: IfClass, field: Field, examinedClass: TypeName, assignable: Assignability): (r: Result<If, Error>)
    ensures r.Success? <==>
      && (ifClass.hasClassFieldConstructor || ifClass.hasNoArgConstructor)
      && assignable(ifClass.valueType, field.fieldType)
      && assignable(ifClass.entityType, examinedClass)
    ensures r.Success? ==> r == CreateIf(ifClass, examinedClass, field)
    // the constructor is looked up first, then the value type, then the entity type
    ensures !(ifClass.hasClassFieldConstructor || ifClass.hasNoArgConstructor) ==>
      r == Failure(NoUsableConstructor(ifClass.name))
    ensures (ifClass.hasClassFieldConstructor || ifClass.hasNoArgConstructor) &&
            !assignable(ifClass.valueType, field.fieldType) ==>
      r == Failure(FieldTypeMismatch(ifClass.name, field.fieldType, ifClass.valueType))
    ensures (ifClass.hasClassFieldConstructor || ifClass.hasNoArgConstructor) &&
            assignable(ifClass.valueType, field.fieldType) && !assignable(ifClass.entityType, examinedClass) ==>
      r == Failure(ContainerTypeMismatch(ifClass.name, examinedClass, ifClass.entityType))
  {
    match CreateIf(ifClass, examinedClass, field)
    case Failure(e) => Failure(e)
    case Success(cond) =>
      if !assignable(ifClass.valueType, field.fieldType) then
        Failure(FieldTypeMismatch(ifClass.name, field.fieldType, ifClass.valueType))
      else if !assignable(ifClass.entityType, examinedClass) then
        Failure(ContainerTypeMismatch(ifClass.name, examinedClass, ifClass.entityType))
      else Success(cond)
  }

  function CheckFn(field: Field, examinedClass: TypeName, assignable: Assignability): IfClass -> Result<If, Error> {
    c => CheckIf(c, field, examinedClass, assignable)
  }

  /** The conditions generated for a list of condition classes, aborting at the first bad one. */
  function Conditions(ifClasses: seq<IfClass>, field: Field, examinedClass: TypeName, assignable: Assignability): (r: Result<seq<If>, Error>)
    ensures r.Success? <==> forall i | 0 <= i < |ifClasses| :: CheckIf(ifClasses[i], field, examinedClass, assignable).Success?
    ensures r.Success? ==> |r.value| == |ifClasses|
    ensures r.Failure? ==>
      exists j | 0 <= j < |ifClasses| ::
        && CheckIf(ifClasses[j], field, examinedClass, assignable) == Failure(r.error)
        && forall i | 0 <= i < j :: CheckIf(ifClasses[i], field, examinedClass, assignable).Success?
  {
    Traverse(ifClasses, CheckFn(field, examinedClass, assignable))
  }

  /** A condition class accepted by `generateIfConditions` has a usable
      constructor and type arguments compatible with the field and the examined class. */
  lemma ConditionsAccepted(ifClasses: seq<IfClass>, field: Field, examinedClass: TypeName, assignable: Assignability, i: nat)
    requires i < |ifClasses| && Conditions(ifClasses, field, examinedClass, assignable).Success?
    ensures var c := ifClasses[i];
            && (c.hasClassFieldConstructor || c.hasNoArgConstructor)
            && assignable(c.valueType, field.fieldType)
            && assignable(c.entityType, examinedClass)
            && Conditions(ifClasses, field, examinedClass, assignable).value[i].ifClass == c
  {
  }

  /** `generateIfConditions`: fills an array of the same length as the class
      list, position by position, and throws at the first class that cannot be used. */
  method GenerateIfConditions(field: Field, ifClasses: seq<IfClass>, examinedClass: TypeName, assignable: Assignability)
      returns (r: Result<seq<If>, Error>)
    ensures r == Conditions(ifClasses, field, examinedClass, assignable)
  {
    var result := new If[|ifClasses|];
    ghost var f := CheckFn(field, examinedClass, assignable);
    for i := 0 to |ifClasses|
      invariant forall j | 0 <= j < i :: f(ifClasses[j]).Success? && result[j] == f(ifClasses[j]).value
    {
      var ifClass := ifClasses[i];
      var cond := CreateIf(ifClass, examinedClass, field);
      if cond.Failure? {
        TraverseFirstFailure(ifClasses, f, i);
        return Failure(cond.error);
      }
      result[i] := cond.value;
      if !assignable(ifClass.valueType, field.fieldType) {
        TraverseFirstFailure(ifClasses, f, i);
        return Failure(FieldTypeMismatch(ifClass.name, field.fieldType, ifClass.valueType));
      }
      if !assignable(ifClass.entityType, examinedClass) {
        TraverseFirstFailure(ifClasses, f, i);
        return Failure(ContainerTypeMismatch(ifClass.name, examinedClass, ifClass.entityType));
      }
    }
    var t := Conditions(ifClasses, field, examinedClass, assignable);
    assert t.Success? && |t.value| == result.Length;
    assert forall j | 0 <= j < result.Length :: t.value[j] == result[j];
    assert t.value == result[..];
    r := Success(result[..]);
  }

  /** The conditions a present annotation generates. */
  predicate ConditionsOk(classes: Option<seq<IfClass>>, field: Field, assignable: Assignability) {
    classes.None? || Conditions(classes.value, field, field.declaringClass, assignable).Success?
  }

  function ConditionsFor(classes: Option<seq<IfClass>>, field: Field, assignable: Assignability): Option<seq<If>>
    requires ConditionsOk(classes, field, assignable)
  {
    if classes.None? then None
    else Some(Conditions(classes.value, field, field.declaringClass, assignable).value)
  }

  /** An `@IgnoreSave` is conditional unless it lists exactly `Always`. */
  predicate ConditionalIgnoreSave(classes: seq<IfClass>) {
    |classes| != 1 || classes[0].name != ALWAYS
  }

  /** At most one entry is illegal with every entry before it legal. */
  lemma FirstIllegalUnique(vs: seq<Option<string>>, i: nat)
    requires i < |vs| && !LegalAlsoLoadValue(vs[i])
    ensures forall j | 0 <= j < |vs| && !LegalAlsoLoadValue(vs[j]) ::
              (forall k | 0 <= k < j :: LegalAlsoLoadValue(vs[k])) ==> j <= i
  {
  }

  /** The test each `@AlsoLoad` entry must pass: not null, and not empty once trimmed. */
  method CheckAlsoLoadValue(v: Option<string>) returns (legal: bool)
    ensures legal <==> LegalAlsoLoadValue(v)
  {
    if v.None? {
      return false;
    }
    TrimEmptyIffBlank(v.value);
    legal := |Trim(v.value)| != 0;
  }

  /** The loop over the `@AlsoLoad` entries: each entry in turn must be
      legal and is added to the names; the first illegal one fails. */
  method AddAlsoLoadNames(names: set<string>, vs: seq<Option<string>>) returns (r: Result<set<string>, Error>)
    ensures r.Success? <==> forall i | 0 <= i < |vs| :: LegalAlsoLoadValue(vs[i])
    ensures forall j | 0 <= j < |vs| && !LegalAlsoLoadValue(vs[j]) ::
              (forall i | 0 <= i < j :: LegalAlsoLoadValue(vs[i])) ==> r == Failure(IllegalAlsoLoadValue(vs[j]))
    ensures r.Success? ==> r.value == names + NamesOf(vs)
  {
    var nameSet := names;
    for i := 0 to |vs|
      invariant forall j | 0 <= j < i :: LegalAlsoLoadValue(vs[j])
      invariant nameSet == names + NamesOf(vs[..i])
    {
      var v := vs[i];
      var legal := CheckAlsoLoadValue(v);
      if !legal {
        FirstIllegalUnique(vs, i);
        return Failure(IllegalAlsoLoadValue(v));
      }
      assert vs[..i + 1][..i] == vs[..i];
      nameSet := nameSet + {v.value};
    }
    assert vs[..|vs|] == vs;
    r := Success(nameSet);
  }

  /** The name set the constructor builds: the field's name plus every
      `@AlsoLoad` entry, the entries checked one by one. */
  method NameSet(field: Field) returns (r: Result<set<string>, Error>)
    ensures r.Success? <==> ValidAlsoLoad(field.alsoLoad)
    ensures field.alsoLoad.Some? && AlsoLoadValues(field.alsoLoad) == [] ==> r == Failure(AlsoLoadWithoutValues)
    ensures var vs := AlsoLoadValues(field.alsoLoad);
            forall j | 0 <= j < |vs| && !LegalAlsoLoadValue(vs[j]) ::
              (forall i | 0 <= i < j :: LegalAlsoLoadValue(vs[i])) ==> r == Failure(IllegalAlsoLoadValue(vs[j]))
    ensures r.Success? ==> r.value == {field.name} + AlsoLoadNames(field.alsoLoad)
  {
    if field.alsoLoad.None? {
      return Success({field.name});
    }
    var value := field.alsoLoad.value.value;
    if value.None? || |value.value| == 0 {
      return Failure(AlsoLoadWithoutValues);
    }
    var vs := value.value;
    assert vs == AlsoLoadValues(field.alsoLoad);
    r := AddAlsoLoadNames({field.name}, vs);
    assert r.Success? <==> ValidAlsoLoad(field.alsoLoad);
  }

  /** The `FieldProperty(Field)` constructor. */
  method NewFieldProperty(field: Field, assignable: Assignability) returns (r: Result<FieldProperty, Error>)
    ensures r.Success? <==>
      && ValidAlsoLoad(field.alsoLoad)
      && !(field.index.Some? && field.unindex.Some?)
      && ConditionsOk(field.index, field, assignable)
      && ConditionsOk(field.unindex, field, assignable)
      && ConditionsOk(field.ignoreSave, field, assignable)
    // the @AlsoLoad checks come first, entry by entry
    ensures field.alsoLoad.Some? && AlsoLoadValues(field.alsoLoad) == [] ==> r == Failure(AlsoLoadWithoutValues)
    ensures var vs := AlsoLoadValues(field.alsoLoad);
            forall j | 0 <= j < |vs| && !LegalAlsoLoadValue(vs[j]) ::
              (forall i | 0 <= i < j :: LegalAlsoLoadValue(vs[i])) ==> r == Failure(IllegalAlsoLoadValue(vs[j]))
    // then the @Index / @Unindex conflict, then the conditions of each annotation in turn
    ensures ValidAlsoLoad(field.alsoLoad) && field.index.Some? && field.unindex.Some? ==> r == Failure(IndexAndUnindex)
    ensures ValidAlsoLoad(field.alsoLoad) && field.unindex.None? && field.index.Some? &&
            !ConditionsOk(field.index, field, assignable) ==>
              r == Failure(Conditions(field.index.value, field, field.declaringClass, assignable).error)
    ensures ValidAlsoLoad(field.alsoLoad) && field.index.None? && field.unindex.Some? &&
            !ConditionsOk(field.unindex, field, assignable) ==>
              r == Failure(Conditions(field.unindex.value, field, field.declaringClass, assignable).error)
    ensures ValidAlsoLoad(field.alsoLoad) && !(field.index.Some? && field.unindex.Some?) &&
            ConditionsOk(field.index, field, assignable) && ConditionsOk(field.unindex, field, assignable) &&
            !ConditionsOk(field.ignoreSave, field, assignable) ==>
              r == Failure(Conditions(field.ignoreSave.value, field, field.declaringClass, assignable).error)
    ensures r.Success? ==>
      && r.value.Valid()
      && r.value.field == field
      && r.value.names == {field.name} + AlsoLoadNames(field.alsoLoad)
      && r.value.indexConditions == ConditionsFor(field.index, field, assignable)
      && r.value.unindexConditions == ConditionsFor(field.unindex, field, assignable)
      && r.value.ignoreSaveConditions == ConditionsFor(field.ignoreSave, field, assignable)
      && (r.value.hasIgnoreSaveConditions <==> field.ignoreSave.Some? && ConditionalIgnoreSave(field.ignoreSave.value))
  {
    var names := NameSet(field);
    if names.Failure? {
      return Failure(names.error);
    }
    var nameSet := names.value;

    if field.index.Some? && field.unindex.Some? {
      return Failure(IndexAndUnindex);
    }

    var indexConditions: Option<seq<If>> := None;
    if field.index.Some? {
      var c := GenerateIfConditions(field, field.index.value, field.declaringClass, assignable);
      if c.Failure? {
        return Failure(c.error);
      }
      indexConditions := Some(c.value);
    }

    var unindexConditions: Option<seq<If>> := None;
    if field.unindex.Some? {
      var c := GenerateIfConditions(field, field.unindex.value, field.declaringClass, assignable);
      if c.Failure? {
        return Failure(c.error);
      }
      unindexConditions := Some(c.value);
    }

    var ignoreSaveConditions: Option<seq<If>> := None;
    var hasIgnoreSaveConditions := false;
    if field.ignoreSave.Some? {
      var classes := field.ignoreSave.value;
      hasIgnoreSaveConditions := |classes| != 1 || classes[0].name != ALWAYS;
      var c := GenerateIfConditions(field, classes, field.declaringClass, assignable);
      if c.Failure? {
        return Failure(c.error);
      }
      ignoreSaveConditions := Some(c.value);
    }

    r := Success(FieldProperty(field, nameSet, indexConditions, unindexConditions,
                               ignoreSaveConditions, hasIgnoreSaveConditions));
  }
}
