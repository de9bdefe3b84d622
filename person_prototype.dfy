/**
 * `Person` and `Employee` written with constructor functions and prototypes
 * (ch04-core-es6-features/code.js, lines 161-181).
 *
 * Objects are heap objects whose own properties the constructor functions
 * assign. The two prototype objects are described by their state once the
 * setup statements (lines 164, 172-174) have run; `describe` is looked up
 * along the prototype chain, as a method call does.
 */
module PersonPrototype {
  import opened Wrappers

  /** The two functions the snippet stores under "describe". */
  datatype Method = PersonDescribe | EmployeeDescribe

  /** A prototype object: its own methods, and the prototype it was created from. */
  datatype Prototype = Prototype(methods: map<string, Method>, parent: Option<Prototype>)

  /** `Person.prototype` with `describe` assigned (line 164). */
  const PersonProto: Prototype := Prototype(map["describe" := PersonDescribe], None)

  /**
   * `Employee.prototype`: `Object.create(Person.prototype)` (line 172) with
   * its own `describe` (line 174), which overrides Person's one level down.
   */
  const EmployeeProto: Prototype := Prototype(map["describe" := EmployeeDescribe], Some(PersonProto))

  /** Finds `key` on `p` or, failing that, further up its prototype chain. */
  function Lookup(p: Prototype, key: string): (r: Option<Method>)
    ensures key in p.methods ==> r == Some(p.methods[key])
    ensures p.parent == None && key !in p.methods ==> r == None
    decreases p
  {
    if key in p.methods then Some(p.methods[key])
    else match p.parent
      case None => None
      case Some(q) => Lookup(q, key)
  }

  /** The prototype chain from `p` upwards, nearest first. */
  function Chain(p: Prototype): (c: seq<Prototype>)
    ensures |c| > 0 && c[0] == p
    decreases p
  {
    match p.parent
    case None => [p]
    case Some(q) => [p] + Chain(q)
  }

  /** `Employee.prototype`'s chain continues at `Person.prototype` and ends there. */
  lemma EmployeeChain()
    ensures Chain(EmployeeProto) == [EmployeeProto, PersonProto]
    ensures Chain(PersonProto) == [PersonProto]
  {
  }

  /** No prototype in `c` holds `key`. */
  ghost predicate NoneHolds(c: seq<Prototype>, key: string)
  {
    forall i :: 0 <= i < |c| ==> key !in c[i].methods
  }

  /** `c[i]` is the first prototype in `c` that holds `key`. */
  ghost predicate FirstHolder(c: seq<Prototype>, key: string, i: int)
  {
    0 <= i < |c| && key in c[i].methods && NoneHolds(c[..i], key)
  }

  lemma NoneHoldsCons(p: Prototype, c: seq<Prototype>, key: string)
    ensures NoneHolds([p] + c, key) <==> key !in p.methods && NoneHolds(c, key)
  {
    var pc := [p] + c;
    assert pc[0] == p;
    assert forall i :: 0 <= i < |c| ==> pc[i + 1] == c[i];
  }

  /**
   * A lookup finds nothing exactly when no prototype on the chain holds the
   * key; otherwise it finds the method of the nearest prototype that does.
   */
  lemma {:induction false} LookupFirstOnChain(p: Prototype, key: string)
    ensures Lookup(p, key).None? <==> NoneHolds(Chain(p), key)
    ensures Lookup(p, key).Some? ==>
              exists i :: FirstHolder(Chain(p), key, i) && Lookup(p, key).value == Chain(p)[i].methods[key]
    decreases p
  {
    var c := Chain(p);
    match p.parent
    case None =>
      assert c == [p] + [];
      NoneHoldsCons(p, [], key);
      if key in p.methods {
        assert c[..0] == [];
        assert FirstHolder(c, key, 0);
      }
    case Some(q) =>
      LookupFirstOnChain(q, key);
      assert c == [p] + Chain(q);
      NoneHoldsCons(p, Chain(q), key);
      if key in p.methods {
        assert c[..0] == [];
        assert FirstHolder(c, key, 0);
      } else if Lookup(q, key).Some? {
        assert Lookup(p, key) == Lookup(q, key);
        var i :| FirstHolder(Chain(q), key, i) && Lookup(q, key).value == Chain(q)[i].methods[key];
        assert c[..i + 1] == [p] + Chain(q)[..i];
        NoneHoldsCons(p, Chain(q)[..i], key);
        assert c[i + 1] == Chain(q)[i];
        assert FirstHolder(c, key, i + 1);
      }
  }

  /** An object created by `new`: its own string-valued properties and its prototype. */
  class Instance {
    var props: map<string, string>
    const proto: Prototype

    /** The allocation step of `new F(...)`: an empty object whose prototype is `F.prototype`. */
    constructor (proto: Prototype)
      ensures props == map[] && this.proto == proto
    {
      props := map[];
      this.proto := proto;
    }
  }

  /** `o.key` used in string concatenation: the property, or "undefined" when it is missing. */
  function PropText(o: Instance, key: string): string
    reads o
  {
    if key in o.props then o.props[key] else "undefined"
  }

  /** The body of constructor function `Person` with `this` bound to `self` (lines 161-163). */
  method Person(self: Instance, name: string)
    modifies self
    ensures self.props == old(self.props)["name" := name]
  {
    self.props := self.props["name" := name];
  }

  /** The body of `Employee`: `Person.call(this, name)`, then the title (lines 168-171). */
  method Employee(self: Instance, name: string, title: string)
    modifies self
    ensures self.props == old(self.props)["name" := name]["title" := title]
  {
    Person(self, name);
    self.props := self.props["title" := title];
  }

  /** `new Person(name)`. */
  method NewPerson(name: string) returns (o: Instance)
    ensures fresh(o) && o.proto == PersonProto && o.props == map["name" := name]
  {
    o := new Instance(PersonProto);
    Person(o, name);
  }

  /** `new Employee(name, title)`. */
  method NewEmployee(name: string, title: string) returns (o: Instance)
    ensures fresh(o) && o.proto == EmployeeProto
    ensures o.props == map["name" := name, "title" := title]
  {
    o := new Instance(EmployeeProto);
    Employee(o, name, title);
  }

  /** Runs one of the stored functions with `this` bound to `self`. */
  function Call(m: Method, self: Instance): (r: string)
    reads self
    ensures "Person called " <= r
    ensures m.EmployeeDescribe? ==> Call(PersonDescribe, self) <= r
    decreases if m.EmployeeDescribe? then 1 else 0
  {
    match m
    case PersonDescribe => "Person called " + PropText(self, "name")
    case EmployeeDescribe =>
      // Person.prototype.describe.call(this), the ES5 spelling of super.describe()
      Call(PersonDescribe, self) + " (" + PropText(self, "title") + ")"
  }

  /**
   * `o.key()`: None stands for the TypeError of calling something that is not
   * a function. An own property shadows the chain, and own properties here are
   * strings, so an own `key` is never callable.
   */
  function Invoke(o: Instance, key: string): (r: Option<string>)
    reads o
    ensures key in o.props ==> r == None
    ensures key !in o.props ==> (r.Some? <==> Lookup(o.proto, key).Some?)
    ensures r.Some? ==> "Person called " <= r.value
  {
    if key in o.props then None
    else
      match Lookup(o.proto, key)
      case None => None
      case Some(m) => Some(Call(m, o))
  }

  /** A person describes itself by its name. */
  lemma PersonDescription(o: Instance)
    requires o.proto == PersonProto && "name" in o.props
    ensures Invoke(o, "describe") ==
              if "describe" in o.props then None
              else Some("Person called " + o.props["name"])
  {
  }

  /**
   * An employee's `describe` is found on `Employee.prototype`, one level
   * before Person's; its text is the person's description with the title in
   * parentheses appended.
   */
  lemma EmployeeDescription(o: Instance)
    requires o.proto == EmployeeProto && "name" in o.props && "title" in o.props
    ensures Lookup(o.proto, "describe") == Some(EmployeeDescribe)
    ensures Lookup(o.proto.parent.value, "describe") == Some(PersonDescribe)
    ensures Invoke(o, "describe") ==
              if "describe" in o.props then None
              else Some("Person called " + o.props["name"] + " (" + o.props["title"] + ")")
    ensures Call(PersonDescribe, o) <= Call(EmployeeDescribe, o)
  {
    var s := Call(PersonDescribe, o);
    assert s + " (" + o.props["title"] + ")" == s + (" (" + o.props["title"] + ")");
  }
}
