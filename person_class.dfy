/**
 * `Person` and `Employee` written with `class`, `extends` and `super`
 * (ch04-core-es6-features/code.js, lines 183-201).
 *
 * Dafny classes do not inherit, so an `Employee` keeps the `Person` that
 * `super(name)` initialises as its `base`, and `super.describe()` is a call
 * of that object's `Describe`.
 */
module PersonClass {

  class Person {
    var name: string

    constructor (name: string)
      ensures this.name == name
    {
      this.name := name;
    }

    /** `describe()`: the text starts with "Person called " and ends with the name. */
    function Describe(): (r: string)
      reads this
      ensures |r| == |"Person called "| + |name|
      ensures r[..|"Person called "|] == "Person called " && r[|"Person called "|..] == name
    {
      "Person called " + name
    }
  }

  class Employee {
    /** The part of the object that `super(name)` initialises. */
    const base: Person
    var title: string

    constructor (name: string, title: string)
      ensures fresh(base) && base.name == name && this.title == title
    {
      base := new Person(name);
      this.title := title;
    }

    /** `describe()`: the person's description with the title in parentheses appended. */
    function Describe(): (r: string)
      reads this, base
      ensures r == "Person called " + base.name + " (" + title + ")"
      ensures base.Describe() <= r
    {
      var s := base.Describe();
      assert s + " (" + title + ")" == s + (" (" + title + ")");
      s + " (" + title + ")"
    }
  }
}
