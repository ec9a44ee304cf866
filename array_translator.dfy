/** The translator factory for array-typed fields: it declines every other
    type, resolves one translator for the component type while the creation
    context says "inside a collection", and translates an array element by
    element to and from a list node. */
module ArrayTranslators {
  import opened Wrappers
  import opened Nodes

  /** A Java type: a class, a parameterized type, or an array of a component type. */
  datatype TypeDesc =
    | ClassType(name: string)
    | Parameterized(raw: string, arguments: seq<TypeDesc>)
    | ArrayType(component: TypeDesc)

  /** `GenericTypeReflector.erase`: drops the type arguments, keeping array structure. */
  function Erase(t: TypeDesc): (r: TypeDesc)
    ensures !r.Parameterized?
    ensures r.ArrayType? <==> t.ArrayType?
  {
    match t
    case ClassType(_) => t
    case Parameterized(raw, _) => ClassType(raw)
    case ArrayType(c) => ArrayType(Erase(c))
  }

  /** A failure raised while translating one value. */
  datatype TranslateError = TranslateError(path: Path, message: string)

  /** A component translator: load a node into a value, save a value (with
      its index flag) into a node; either may fail. */
  datatype Translator<!T, !S> = Translator(
    load: EntityNode<S> -> Result<T, TranslateError>,
    save: (T, bool) -> Result<EntityNode<S>, TranslateError>)

  function SaveFn<T, S>(t: Translator<T, S>, index: bool): T -> Result<EntityNode<S>, TranslateError> {
    v => t.save(v, index)
  }

  /** Loading every node in order, aborting at the first failure. */
  function LoadAll<T, S>(t: Translator<T, S>, nodes: seq<EntityNode<S>>): Result<seq<T>, TranslateError> {
    Traverse(nodes, t.load)
  }

  /** Saving every value in order with one index flag, aborting at the first failure. */
  function SaveAll<T, S>(t: Translator<T, S>, values: seq<T>, index: bool): Result<seq<EntityNode<S>>, TranslateError> {
    Traverse(values, SaveFn(t, index))
  }

  /** If the component translator gives back every value it saved, then so
      does the array translation, element by element and with the same length. */
  lemma {:induction false} RoundTrip<T, S>(t: Translator<T, S>, values: seq<T>, index: bool)
    requires forall v :: t.save(v, index).Success? ==> t.load(t.save(v, index).value) == Success(v)
    requires SaveAll(t, values, index).Success?
    ensures LoadAll(t, SaveAll(t, values, index).value) == Success(values)
  {
    var nodes := SaveAll(t, values, index).value;
    forall i | 0 <= i < |nodes| ensures t.load(nodes[i]) == Success(values[i]) {
      assert SaveFn(t, index)(values[i]).Success?;
      assert nodes[i] == t.save(values[i], index).value;
    }
    var r := LoadAll(t, nodes);
    assert r.Success?;
    assert r.value == values;
  }

  /** `CreateContext`, reduced to the flag this factory sets. */
  class CreateContext {
    var inCollection: bool

    constructor (inCollection: bool)
      ensures this.inCollection == inCollection
    {
      this.inCollection := inCollection;
    }
  }

  /** The `ListNodeTranslator` that `create` returns. */
  datatype ArrayTranslator<!T(0), !S> = ArrayTranslator(path: Path, componentType: TypeDesc, component: Translator<T, S>)
  {
    /** `loadList`: a new array of exactly as many elements as the node has
        children, element i loaded from child i. */
    method LoadList(items: seq<EntityNode<S>>) returns (r: Result<array<T>, TranslateError>)
      ensures r.Success? <==> LoadAll(component, items).Success?
      ensures r.Success? ==> fresh(r.value) && r.value[..] == LoadAll(component, items).value
      ensures r.Failure? ==> r.error == LoadAll(component, items).error
    {
      var arr := new T[|items|];
      var index := 0;
      while index < |items|
        invariant 0 <= index <= |items|
        invariant forall j | 0 <= j < index :: component.load(items[j]).Success? && arr[j] == component.load(items[j]).value
      {
        var value := component.load(items[index]);
        if value.Failure? {
          TraverseFirstFailure(items, component.load, index);
          return Failure(value.error);
        }
        arr[index] := value.value;
        index := index + 1;
      }
      ghost var loaded := LoadAll(component, items);
      assert loaded.Success? && |loaded.value| == arr.Length;
      assert forall j | 0 <= j < arr.Length :: loaded.value[j] == arr[j];
      assert loaded.value == arr[..];
      r := Success(arr);
    }

    /** `saveList`: a list node at this translator's path with one child per
        array element, in order, every element saved with the same index flag. */
    method SaveList(pojo: array<T>, index: bool) returns (r: Result<EntityNode<S>, TranslateError>)
      ensures r.Success? <==> SaveAll(component, pojo[..], index).Success?
      ensures r.Success? ==> r.value == ListNode(path, SaveAll(component, pojo[..], index).value)
      ensures r.Failure? ==> r.error == SaveAll(component, pojo[..], index).error
    {
      var items: seq<EntityNode<S>> := [];
      var len := pojo.Length;
      ghost var f := SaveFn(component, index);
      for i := 0 to len
        invariant |items| == i
        invariant forall j | 0 <= j < i :: f(pojo[j]).Success? && items[j] == f(pojo[j]).value
      {
        var value := pojo[i];
        var addNode := component.save(value, index);
        if addNode.Failure? {
          TraverseFirstFailure(pojo[..], f, i);
          return Failure(addNode.error);
        }
        items := items + [addNode.value];
      }
      ghost var saved := SaveAll(component, pojo[..], index);
      assert saved.Success? && |saved.value| == |items|;
      assert forall j | 0 <= j < |items| :: saved.value[j] == items[j];
      assert saved.value == items;
      r := Success(ListNode(path, items));
    }
  }

  /** `create`: declines a type whose erasure is not an array, leaving the
      context alone; otherwise sets "inside a collection", resolves the
      component translator of the erased array type (a failure propagates),
      and clears the flag on the way out, on success and on failure alike. */
  method Create<T(0), S, A, E>(
      path: Path, fieldAnnotations: A, t: TypeDesc, ctx: CreateContext,
      resolve: (Path, A, TypeDesc, bool) -> Result<Translator<T, S>, E>)
      returns (r: Result<Option<ArrayTranslator<T, S>>, E>)
    modifies ctx
    ensures !Erase(t).ArrayType? ==> r == Success(None) && ctx.inCollection == old(ctx.inCollection)
    ensures Erase(t).ArrayType? ==> !ctx.inCollection
    ensures Erase(t).ArrayType? ==>
      var componentType := Erase(t).component;
      match resolve(path, fieldAnnotations, componentType, true)
      case Success(c) => r == Success(Some(ArrayTranslator(path, componentType, c)))
      case Failure(e) => r == Failure(e)
  {
    var arrayType := Erase(t);
    if !arrayType.ArrayType? {
      return Success(None);
    }
    ctx.inCollection := true;
    var componentType := arrayType.component;
    var componentTranslator := resolve(path, fieldAnnotations, componentType, ctx.inCollection);
    ctx.inCollection := false;
    match componentTranslator {
      case Failure(e) => r := Failure(e);
      case Success(c) => r := Success(Some(ArrayTranslator(path, componentType, c)));
    }
  }

  /** Saving an array and loading the node back gives the same elements. */
  method SaveThenLoad<T(0), S>(tr: ArrayTranslator<T, S>, a: array<T>, index: bool)
      returns (back: Result<array<T>, TranslateError>)
    requires forall v :: tr.component.save(v, index).Success? ==>
               tr.component.load(tr.component.save(v, index).value) == Success(v)
    requires SaveAll(tr.component, a[..], index).Success?
    ensures back.Success? && back.value.Length == a.Length && back.value[..] == a[..]
  {
    RoundTrip(tr.component, a[..], index);
    var node := tr.SaveList(a, index);
    back := tr.LoadList(node.value.items);
  }
}
