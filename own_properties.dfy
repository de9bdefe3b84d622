/**
 * `copyOwnPropertiesFrom(target, source)` (ch04-core-es6-features/code.js,
 * lines 210-216): defines every own property of `source` on `target`, with
 * `source`'s descriptor, and returns `target`.
 *
 * An object's own properties are an ordered list of names (the order
 * `Object.getOwnPropertyNames` reports) and a descriptor per name.
 * Descriptors are copied as opaque values.
 */
module OwnProperties {

  /** A property descriptor; copying never looks inside it. */
  datatype Descriptor = Descriptor(value: string, writable: bool, enumerable: bool, configurable: bool)

  /** Own properties: names in creation order, and their descriptors. */
  datatype OwnProps = OwnProps(names: seq<string>, descs: map<string, Descriptor>)

  /** Each name is listed once, and the listed names are exactly the described ones. */
  ghost predicate WellFormed(p: OwnProps)
  {
    (forall i, j :: 0 <= i < j < |p.names| ==> p.names[i] != p.names[j]) &&
    (forall k :: k in p.descs <==> k in p.names)
  }

  /**
   * `Object.defineProperty(o, key, d)` on an extensible object: an existing
   * property keeps its place in the order, a new one goes last.
   */
  function Define(p: OwnProps, key: string, d: Descriptor): (r: OwnProps)
    ensures r.descs == p.descs[key := d]
    ensures p.names <= r.names
    ensures WellFormed(p) ==> WellFormed(r)
  {
    OwnProps(if key in p.descs then p.names else p.names + [key], p.descs[key := d])
  }

  /**
   * The properties after the `forEach` has defined each of `keys`, in order,
   * with its descriptor in `src`: still well formed, with the target's names
   * first, in their order.
   */
  function CopyAll(t: OwnProps, keys: seq<string>, src: map<string, Descriptor>): (r: OwnProps)
    requires forall k :: k in keys ==> k in src
    ensures WellFormed(t) ==> WellFormed(r)
    ensures t.names <= r.names
  {
    if keys == [] then t
    else Define(CopyAll(t, keys[..|keys| - 1], src), keys[|keys| - 1], src[keys[|keys| - 1]])
  }

  /**
   * Copying gives every copied key the source's descriptor and leaves every
   * other property of the target as it was.
   */
  lemma {:induction false} CopyAllDescriptors(t: OwnProps, keys: seq<string>, src: map<string, Descriptor>)
    requires forall k :: k in keys ==> k in src
    ensures CopyAll(t, keys, src).descs == t.descs + map k | k in keys :: src[k]
  {
    if keys != [] {
      var init, last := keys[..|keys| - 1], keys[|keys| - 1];
      CopyAllDescriptors(t, init, src);
      var before := map k | k in init :: src[k];
      var after := map k | k in keys :: src[k];
      assert keys == init + [last];
      assert after == before[last := src[last]];
      assert (t.descs + before)[last := src[last]] == t.descs + after;
    }
  }

  /**
   * Copying all own properties of `s` merges the two maps, the source winning
   * on shared keys.
   */
  lemma CopyAllMerges(t: OwnProps, s: OwnProps)
    requires WellFormed(t) && WellFormed(s)
    ensures WellFormed(CopyAll(t, s.names, s.descs))
    ensures CopyAll(t, s.names, s.descs).descs == t.descs + s.descs
    ensures forall k :: k in s.descs ==> CopyAll(t, s.names, s.descs).descs[k] == s.descs[k]
    ensures forall k :: k in t.descs && k !in s.descs ==> CopyAll(t, s.names, s.descs).descs[k] == t.descs[k]
  {
    CopyAllDescriptors(t, s.names, s.descs);
    assert (map k | k in s.names :: s.descs[k]) == s.descs;
  }

  /** An object with its own properties. */
  class PropsObject {
    var own: OwnProps

    ghost predicate Valid()
      reads this
    {
      WellFormed(own)
    }

    constructor (own: OwnProps)
      requires WellFormed(own)
      ensures Valid() && this.own == own
    {
      this.own := own;
    }

    /** `Object.defineProperty(this, key, desc)`. */
    method DefineProperty(key: string, desc: Descriptor)
      requires Valid()
      modifies this
      ensures Valid() && own == Define(old(own), key, desc)
    {
      own := Define(own, key, desc);
    }
  }

  /** `copyOwnPropertiesFrom(target, source)`; `target` and `source` may be the same object. */
  method CopyOwnPropertiesFrom(target: PropsObject, source: PropsObject) returns (r: PropsObject)
    requires target.Valid() && source.Valid()
    modifies target
    ensures r == target && target.Valid()
    ensures target.own == CopyAll(old(target.own), old(source.own.names), old(source.own.descs))
    ensures target.own.descs == old(target.own.descs) + old(source.own.descs)
    ensures old(target.own.names) <= target.own.names
  {
    var names := source.own.names;  // Object.getOwnPropertyNames(source)
    ghost var src := source.own.descs;
    ghost var start := target.own;
    var i := 0;
    while i < |names|
      invariant 0 <= i <= |names|
      invariant forall k :: k in names ==> k in src
      invariant target.Valid()
      invariant target.own == CopyAll(start, names[..i], src)
      invariant forall k :: k in src ==> k in source.own.descs && source.own.descs[k] == src[k]
    {
      var propKey := names[i];
      var desc := source.own.descs[propKey];  // Object.getOwnPropertyDescriptor(source, propKey)
      assert desc == src[propKey];
      target.DefineProperty(propKey, desc);
      assert names[..i + 1][..i] == names[..i];
      assert target.own == CopyAll(start, names[..i + 1], src);
      CopyAllDescriptors(start, names[..i + 1], src);
      i := i + 1;
    }
    assert names[..i] == names;
    CopyAllMerges(start, OwnProps(names, src));
    r := target;
  }
}
