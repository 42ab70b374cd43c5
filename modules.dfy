/**
 * Module configuration. A HierarchicalModuleContext answers a key from its own context and
 * defers to its parent when the key is absent; a module's `withContext` wraps the context it
 * holds under a new layer, so the newest layer shadows the older ones.
 */
module ModuleContexts {
  import opened Base

  /**
   * A module context. `MapLayer` stands for a context answering from a fixed map (the
   * environment, the system properties, a HashMapModuleContext); those classes are not part
   * of this model beyond that lookup. `Layered` is a HierarchicalModuleContext.
   */
  datatype ModuleContext =
    | MapLayer(values: map<string, string>)
    | Layered(parent: Option<ModuleContext>, context: ModuleContext)

  const NullContextError := Error(IllegalArgument, "context may not be null")

  /** `new HierarchicalModuleContext(parent, context)`: the context may not be null, the parent may. */
  function NewHierarchical(parent: Option<ModuleContext>, context: Option<ModuleContext>): (r: Result<ModuleContext>)
    ensures context.None? ==> r == Err(NullContextError)
    ensures context.Some? ==> r.Ok? && r.value.Layered? && r.value.parent == parent && r.value.context == context.value
  {
    if context.None? then Err(NullContextError) else Ok(Layered(parent, context.value))
  }

  /** `getValue(key)`: an empty Optional is None. */
  function GetValue(c: ModuleContext, key: string): Option<string> {
    match c
    case MapLayer(m) => if key in m then Some(m[key]) else None
    case Layered(parent, context) =>
      var v := GetValue(context, key);
      if v.None? && parent.Some? then GetValue(parent.value, key) else v
  }

  // ---------------------------------------------------------------------------------------
  // The reference: a chain of layers, newest first

  /** The maps of a context, in the order a lookup consults them. */
  function Layers(c: ModuleContext): seq<map<string, string>> {
    match c
    case MapLayer(m) => [m]
    case Layered(parent, context) => Layers(context) + (if parent.Some? then Layers(parent.value) else [])
  }

  /** The value of `key` in the first map that holds it. */
  function FirstHolding(layers: seq<map<string, string>>, key: string): (r: Option<string>)
    ensures r.Some? <==> exists k :: 0 <= k < |layers| && key in layers[k]
  {
    if layers == [] then None
    else if key in layers[0] then Some(layers[0][key])
    else
      var r := FirstHolding(layers[1..], key);
      assert forall k :: 1 <= k < |layers| ==> layers[k] == layers[1..][k - 1];
      r
  }

  lemma {:induction false} FirstHoldingAppend(a: seq<map<string, string>>, b: seq<map<string, string>>, key: string)
    ensures FirstHolding(a + b, key) == if FirstHolding(a, key).Some? then FirstHolding(a, key) else FirstHolding(b, key)
  {
    if a == [] {
      assert a + b == b;
    } else {
      assert (a + b)[0] == a[0];
      assert (a + b)[1..] == a[1..] + b;
      FirstHoldingAppend(a[1..], b, key);
    }
  }

  /** Along a chain, the first layer holding the key wins, and a key no layer holds is empty. */
  lemma {:induction false} FirstLayerWins(c: ModuleContext, key: string)
    ensures GetValue(c, key) == FirstHolding(Layers(c), key)
  {
    match c
    case MapLayer(m) =>
    case Layered(parent, context) =>
      FirstLayerWins(context, key);
      if parent.Some? {
        FirstLayerWins(parent.value, key);
        FirstHoldingAppend(Layers(context), Layers(parent.value), key);
      } else {
        assert Layers(c) == Layers(context) + [];
        assert Layers(context) + [] == Layers(context);
      }
  }

  // ---------------------------------------------------------------------------------------
  // Modules

  /** AbstractModule: the context field, which `withContext` replaces. */
  class Module {
    var context: ModuleContext

    /** The context starts as the module's `defaultContext()`. */
    constructor(defaultContext: ModuleContext)
      ensures context == defaultContext
    {
      context := defaultContext;
    }

    /**
     * `withContext(ctx)`: the held context becomes `ctx` layered over it, and the module
     * itself is returned; a null `ctx` fails and leaves the context as it was.
     */
    method WithContext(ctx: Option<ModuleContext>) returns (r: Result<Module>)
      modifies this
      ensures ctx.None? ==> r == Err(NullContextError) && context == old(context)
      ensures ctx.Some? ==> r == Ok(this) && context == Layered(Some(old(context)), ctx.value)
      ensures ctx.Some? ==> forall key :: GetValue(context, key) ==
                              if GetValue(ctx.value, key).Some? then GetValue(ctx.value, key) else GetValue(old(context), key)
    {
      var c := NewHierarchical(Some(context), ctx);
      if c.Err? {
        return Err(c.error);
      }
      context := c.value;
      return Ok(this);
    }
  }

  /** The context after `withContext` of each of `layers` in turn, starting from `c`. */
  function Pushed(c: ModuleContext, layers: seq<ModuleContext>): ModuleContext {
    if layers == [] then c else Layered(Some(Pushed(c, layers[..|layers| - 1])), layers[|layers| - 1])
  }

  /** One `withContext` less: the newest layer answers first, then the context below it. */
  lemma PushedLookup(c: ModuleContext, layers: seq<ModuleContext>, key: string)
    requires layers != []
    ensures GetValue(Pushed(c, layers), key)
            == if GetValue(layers[|layers| - 1], key).Some? then GetValue(layers[|layers| - 1], key)
               else GetValue(Pushed(c, layers[..|layers| - 1]), key)
  {
  }

  lemma {:induction false} NewestHoldingLayer(c: ModuleContext, layers: seq<ModuleContext>, key: string, k: nat)
    requires k < |layers| && GetValue(layers[k], key).Some?
    requires forall j :: k < j < |layers| ==> GetValue(layers[j], key).None?
    ensures GetValue(Pushed(c, layers), key) == GetValue(layers[k], key)
    decreases |layers|
  {
    PushedLookup(c, layers, key);
    if k < |layers| - 1 {
      var init := layers[..|layers| - 1];
      assert init[k] == layers[k];
      forall j | k < j < |init| ensures GetValue(init[j], key).None? {
        assert init[j] == layers[j];
      }
      NewestHoldingLayer(c, init, key, k);
    }
  }

  lemma {:induction false} NoLayerHolds(c: ModuleContext, layers: seq<ModuleContext>, key: string)
    requires forall j :: 0 <= j < |layers| ==> GetValue(layers[j], key).None?
    ensures GetValue(Pushed(c, layers), key) == GetValue(c, key)
    decreases |layers|
  {
    if layers != [] {
      PushedLookup(c, layers, key);
      var init := layers[..|layers| - 1];
      forall j | 0 <= j < |init| ensures GetValue(init[j], key).None? {
        assert init[j] == layers[j];
      }
      NoLayerHolds(c, init, key);
    }
  }

  /**
   * After several `withContext` calls, a key comes from the newest layer that holds it, then
   * from the context the module started with.
   */
  lemma NewestLayerWins(c: ModuleContext, layers: seq<ModuleContext>, key: string)
    ensures forall k :: 0 <= k < |layers| && GetValue(layers[k], key).Some?
                        && (forall j :: k < j < |layers| ==> GetValue(layers[j], key).None?) ==>
              GetValue(Pushed(c, layers), key) == GetValue(layers[k], key)
    ensures (forall j :: 0 <= j < |layers| ==> GetValue(layers[j], key).None?) ==>
              GetValue(Pushed(c, layers), key) == GetValue(c, key)
  {
    forall k | 0 <= k < |layers| && GetValue(layers[k], key).Some?
               && (forall j :: k < j < |layers| ==> GetValue(layers[j], key).None?)
      ensures GetValue(Pushed(c, layers), key) == GetValue(layers[k], key)
    {
      NewestHoldingLayer(c, layers, key, k);
    }
    if forall j :: 0 <= j < |layers| ==> GetValue(layers[j], key).None? {
      NoLayerHolds(c, layers, key);
    }
  }
}
