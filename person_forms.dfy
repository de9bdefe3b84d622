/**
 * The prototype form and the class form of `Person`/`Employee`
 * (ch04-core-es6-features/code.js, lines 161-201) describe their objects
 * with the same strings.
 */
module PersonForms {
  import opened Wrappers
  import PersonPrototype
  import PersonClass

  /** `new Person(name).describe()` gives the same text in both forms. */
  method PersonFormsAgree(name: string) returns (viaPrototype: Option<string>, viaClass: string)
    ensures viaPrototype == Some(viaClass)
    ensures viaClass == "Person called " + name
  {
    var p := PersonPrototype.NewPerson(name);
    PersonPrototype.PersonDescription(p);
    viaPrototype := PersonPrototype.Invoke(p, "describe");
    var q := new PersonClass.Person(name);
    viaClass := q.Describe();
  }

  /** `new Employee(name, title).describe()` gives the same text in both forms. */
  method EmployeeFormsAgree(name: string, title: string) returns (viaPrototype: Option<string>, viaClass: string)
    ensures viaPrototype == Some(viaClass)
    ensures viaClass == "Person called " + name + " (" + title + ")"
  {
    var e := PersonPrototype.NewEmployee(name, title);
    PersonPrototype.EmployeeDescription(e);
    viaPrototype := PersonPrototype.Invoke(e, "describe");
    var f := new PersonClass.Employee(name, title);
    viaClass := f.Describe();
  }
}
