# ES5 vs ES6 snippets: the algorithmic pieces, modelled and verified

The chapter "core ES6 features" of *Exploring ES6* pairs old-style (ES5) and
new-style (ES6) ways of writing the same thing. A handful of the pairs are
small self-contained algorithms. This project models them in Dafny and proves
what each one does and that the two versions of a pair agree:

- **word counting** (`escapeKey` and the two `countWords`): an ES5 prototype-less
  dictionary with escaped keys, and an ES6 `Map`. Each table is a `map` field of
  a class that `CountWords` updates in place. Both are proved to hold each
  word's number of occurrences, and to agree with each other.
- **the ES5 `endsWith` helper** built on `indexOf`, against native
  `String.prototype.endsWith`;
- **the date matcher** `/^(\d\d\d\d)-(\d\d)-(\d\d)$/.exec("2999-12-31")`, read
  through indices and through destructuring;
- **`Person`/`Employee` and `describe`**, once with prototypes and once with
  `class`/`super`;
- **`copyOwnPropertiesFrom`**, a loop that copies own properties in place.

Files, one module each: `wrappers.dfy` (Option), `js_string.dfy` (JsString),
`word_count.dfy` (WordCount), `date_match.dfy` (DateMatch),
`person_prototype.dfy` (PersonPrototype), `person_class.dfy` (PersonClass),
`person_forms.dfy` (PersonForms), `own_properties.dfy` (OwnProperties).

JavaScript `null`/`undefined` results are `None`. A thrown `TypeError` is
`None` too. Strings are `seq<char>`.

## Model

| member | source | states |
|---|---|---|
| JsString.IndexOfFrom | ch04-core-es6-features/code.js:249 | the scan behind `indexOf`: -1 exactly when the needle occurs nowhere at or after the start index, otherwise the first such occurrence |
| JsString.IndexOf | ch04-core-es6-features/code.js:249 | `indexOf` returns -1 exactly when the needle occurs nowhere; otherwise it returns an index where the needle occurs, with no earlier occurrence |
| JsString.IndexOfZeroIffStartsWith | ch04-core-es6-features/code.js:243-246 | the ES5 test `str.indexOf(p) === 0` holds exactly when ES6 `str.startsWith(p)` does |
| JsString.StartsWith | ch04-core-es6-features/code.js:245 | definition of native `startsWith(p)`: `p` occurs at index 0 |
| JsString.StartsWithIsPrefix | ch04-core-es6-features/code.js:245 | `str.startsWith(p)` holds exactly when `str` is `p` followed by some string |
| JsString.NativeEndsWith | ch04-core-es6-features/code.js:252 | definition of native `endsWith(x)`: `x` occurs at index `str.length - x.length` |
| JsString.NativeEndsWithIsSuffix | ch04-core-es6-features/code.js:252 | `str.endsWith(x)` holds exactly when `str` is some string followed by `x` |
| JsString.EndsWith | ch04-core-es6-features/code.js:248-251 | the ES5 helper: a true answer means `str` really ends with `suffix` |
| JsString.EndsWithIffOnlyFinalOccurrence | ch04-core-es6-features/code.js:248-251 | the helper is true iff `str` ends with `suffix` and `suffix` occurs nowhere earlier in `str` |
| JsString.EndsWithStricterThanNative | ch04-core-es6-features/code.js:248-252 | on `("abab", "ab")` native `endsWith` is true and the helper is false |
| JsString.EndsWithLongSuffix | ch04-core-es6-features/code.js:248-251 | a suffix longer than the string is rejected |
| JsString.IndexGuardNeeded | ch04-core-es6-features/code.js:249-250 | for a suffix one longer than the string, `indexOf` gives -1, which equals `str.length - suffix.length`; only the `index >= 0` test rejects it |
| JsString.EndsWithEmptySuffix | ch04-core-es6-features/code.js:248-251 | the empty suffix is accepted only by the empty string |
| JsString.EndsWithCorrected | ch04-core-es6-features/code.js:248-252 | the helper searching only from `str.length - suffix.length` agrees with native `endsWith` on every input |
| WordCount.EscapeKey | ch04-core-es6-features/code.js:228-235 | a key starting with "__proto__" gets "%" appended; any other key is returned unchanged |
| WordCount.EscapeKeyNeverProto | ch04-core-es6-features/code.js:228-235 | no key escapes to exactly "__proto__" |
| WordCount.EscapeKeyInjective | ch04-core-es6-features/code.js:228-235 | distinct keys escape to distinct keys, so words never collide in the dictionary |
| WordCount.EscapeKeyTwice | ch04-core-es6-features/code.js:228-235 | escaping is not idempotent: escaping a "__proto__…" key twice appends "%%" |
| WordCount.DictStep | ch04-core-es6-features/code.js:218-226 | one ES5 `countWords(word)` adds the escaped word to the keys; it sets that entry to old value + 1, or to 1 if absent; every other entry is unchanged; positive counts stay positive |
| WordCount.DictAfter | ch04-core-es6-features/code.js:218-226 | the dictionary after any sequence of `countWords` calls holds only positive counts |
| WordCount.DictAfterCounts | ch04-core-es6-features/code.js:218-226 | after counting a word sequence, the dictionary has `escapeKey(w)` iff `w` occurred, and holds its number of occurrences there |
| WordCount.DictAfterKeys | ch04-core-es6-features/code.js:218-226 | every key of the dictionary is the escaped form of a counted word |
| WordCount.DictCounter.constructor | ch04-core-es6-features/code.js:218 | `Object.create(null)` starts an empty dictionary with no words counted |
| WordCount.DictCounter.CountWords | ch04-core-es6-features/code.js:219-226 | updates `dict` in place to `DictStep` of its old value and records the word, keeping the dictionary equal to the count of all words so far |
| WordCount.MapGet | ch04-core-es6-features/code.js:239 | definition of `map.get(word)`: defined exactly when `word` is a key, and then its stored count |
| WordCount.OrZero | ch04-core-es6-features/code.js:239 | the zero fallback gives the value whenever one is defined (a falsy 0 gives 0 anyway), and 0 for `undefined` |
| WordCount.FallbackOnlyForAbsent | ch04-core-es6-features/code.js:239 | with positive counts, `map.get(word)` is falsy exactly when `word` is absent |
| WordCount.MapStep | ch04-core-es6-features/code.js:238-241 | one ES6 `countWords(word)` adds the word to the keys; it sets the entry to old value + 1, or to 1 if absent; every other entry is unchanged; positive counts stay positive |
| WordCount.MapAfter | ch04-core-es6-features/code.js:237-241 | the Map after any sequence of `countWords` calls holds only positive counts |
| WordCount.MapAfterCounts | ch04-core-es6-features/code.js:237-241 | after counting a word sequence, the Map has `w` iff `w` occurred, with its number of occurrences |
| WordCount.DictAndMapAgree | ch04-core-es6-features/code.js:218-241 | for every word sequence and word, `map.get(w)` is defined iff `dict[escapeKey(w)]` is, and the two counts are equal |
| WordCount.MapCounter.constructor | ch04-core-es6-features/code.js:237 | `new Map()` starts empty with no words counted |
| WordCount.MapCounter.CountWords | ch04-core-es6-features/code.js:238-241 | updates the Map in place to `MapStep` of its old value and records the word, keeping the Map equal to the count of all words so far |
| DateMatch.MatchPieces | ch04-core-es6-features/code.js:80 | an anchored match of the pattern returns one capture per group |
| DateMatch.Exec | ch04-core-es6-features/code.js:80 | `exec` returns an array whose element 0 is the whole input, followed by one capture per group |
| DateMatch.MatchSound | ch04-core-es6-features/code.js:80 | the captures of a successful match fit their groups and spell the input back when put into the pattern |
| DateMatch.MatchRender | ch04-core-es6-features/code.js:80 | matching the string spelled by any fitting captures returns exactly those captures |
| DateMatch.DatePatternFits | ch04-core-es6-features/code.js:80 | captures fit the date pattern iff there are three: 4 digits, 2 digits, 2 digits |
| DateMatch.DatePatternRender | ch04-core-es6-features/code.js:80 | the date pattern spells its captures as `year + "-" + month + "-" + day` |
| DateMatch.ExecDate | ch04-core-es6-features/code.js:80 | a date match array has four elements, the first being the input |
| DateMatch.ExecDateExactly | ch04-core-es6-features/code.js:80-85 | the pattern matches exactly the 10-character strings "dddd-dd-dd" of ASCII digits; on a match the three groups are digit runs and `year + "-" + month + "-" + day` rebuilds the input |
| DateMatch.ExecDateGroups | ch04-core-es6-features/code.js:80-85 | on a "dddd-dd-dd" string the match array is the input followed by its characters 0-3, 5-6 and 8-9 |
| DateMatch.ExecDateFormat | ch04-core-es6-features/code.js:80 | matching a formatted date of 4, 2 and 2 digits returns those three strings |
| DateMatch.ExecDateExample | ch04-core-es6-features/code.js:80-85 | `"2999-12-31"` yields `["2999-12-31", "2999", "12", "31"]` |
| DateMatch.Destructure | ch04-core-es6-features/code.js:85 | an array pattern yields one value per bound name |
| DateMatch.DestructureSkipsFirst | ch04-core-es6-features/code.js:85 | the pattern `[, a, b, c]` on a four-element array binds its elements 1, 2 and 3 |
| DateMatch.IndexForm | ch04-core-es6-features/code.js:80-83 | reading `matchObj[1..3]` fails (TypeError on `null`) exactly for strings that are not "dddd-dd-dd", and otherwise binds the input's year, month and day digit runs |
| DateMatch.DestructureForm | ch04-core-es6-features/code.js:85 | the destructuring declaration binds exactly what the index form binds and fails on the same inputs |
| PersonPrototype.Lookup | ch04-core-es6-features/code.js:172-176 | a method held by the prototype itself is found there, before anything inherited; a prototype without the key and without a parent yields nothing |
| PersonPrototype.Chain | ch04-core-es6-features/code.js:172 | the prototype chain starts at the prototype itself |
| PersonPrototype.EmployeeChain | ch04-core-es6-features/code.js:164-174 | `Employee.prototype`, created from `Person.prototype`, has the chain `[Employee.prototype, Person.prototype]`; Person's chain is just itself |
| PersonPrototype.LookupFirstOnChain | ch04-core-es6-features/code.js:164-176 | for every prototype and key, lookup yields nothing iff no prototype on the chain holds the key, and otherwise the method of the nearest one that does |
| PersonPrototype.Person | ch04-core-es6-features/code.js:161-163 | `Person` sets `this.name` and nothing else |
| PersonPrototype.Employee | ch04-core-es6-features/code.js:168-171 | `Employee` sets `name` through `Person.call`, then `title`, and nothing else |
| PersonPrototype.NewPerson | ch04-core-es6-features/code.js:161-164 | `new Person(name)` is a fresh object on `Person.prototype` whose own properties are just `name` |
| PersonPrototype.NewEmployee | ch04-core-es6-features/code.js:168-174 | `new Employee(name, title)` is a fresh object on `Employee.prototype` whose own properties are `name` and `title` |
| PersonPrototype.Call | ch04-core-es6-features/code.js:164-181 | both stored `describe` functions produce a text starting "Person called "; Employee's has Person's text (`Person.prototype.describe.call(this)`) as a prefix |
| PersonPrototype.Invoke | ch04-core-es6-features/code.js:164-181 | an own (string) property shadows the chain and calling it fails; otherwise the call succeeds exactly when lookup on the chain finds a method, and any `describe` found returns a text starting "Person called " |
| PersonPrototype.PersonDescription | ch04-core-es6-features/code.js:164-166 | a person's `describe()` is "Person called " followed by the name, unless an own `describe` property shadows it |
| PersonPrototype.EmployeeDescription | ch04-core-es6-features/code.js:172-181 | an employee finds `describe` on `Employee.prototype`, overriding Person's one level up; unless an own `describe` shadows it, the result is "Person called name (title)"; Employee's text has Person's description as a prefix |
| PersonClass.Person.constructor | ch04-core-es6-features/code.js:184-186 | the constructor stores the name |
| PersonClass.Person.Describe | ch04-core-es6-features/code.js:188-190 | the description is "Person called " followed by exactly the name |
| PersonClass.Employee.constructor | ch04-core-es6-features/code.js:194-197 | `super(name)` initialises a fresh person part with the name; the title is stored |
| PersonClass.Employee.Describe | ch04-core-es6-features/code.js:198-200 | the description is "Person called name (title)" and has `super.describe()` as a prefix |
| PersonForms.PersonFormsAgree | ch04-core-es6-features/code.js:161-191 | a prototype-form person and a class-form person with the same name describe themselves identically |
| PersonForms.EmployeeFormsAgree | ch04-core-es6-features/code.js:161-201 | a prototype-form employee and a class-form employee with the same name and title describe themselves identically, as "Person called name (title)" |
| OwnProperties.Define | ch04-core-es6-features/code.js:213 | defining a property sets its descriptor; existing names keep their order; a new name goes last; well-formedness is preserved |
| OwnProperties.CopyAll | ch04-core-es6-features/code.js:211-214 | the `forEach` over the names keeps the properties well formed and the target's names first, in their order |
| OwnProperties.CopyAllDescriptors | ch04-core-es6-features/code.js:210-216 | after copying a list of keys, each has the source's descriptor and every other target property is unchanged |
| OwnProperties.CopyAllMerges | ch04-core-es6-features/code.js:210-216 | copying all string-keyed own properties of the source merges the maps, the source winning on shared keys |
| OwnProperties.PropsObject.DefineProperty | ch04-core-es6-features/code.js:213 | `Object.defineProperty` updates the object's own properties in place as `Define` says |
| OwnProperties.CopyOwnPropertiesFrom | ch04-core-es6-features/code.js:210-216 | returns `target` itself; `target`'s properties become its old ones merged with `source`'s, in the `forEach` order; its old names stay first; this holds also when `source` is `target` |

## Findings

| source | as written | input that shows it | evidently intended | confidence | as-written member | corrected member |
|---|---|---|---|---|---|---|
| ch04-core-es6-features/code.js:248-251 | `endsWith` takes the FIRST occurrence of `suffix` and compares its index with `str.length - suffix.length` | `endsWith("abab", "ab")` is false, while `"abab".endsWith("ab")` (line 252) is true | the ES5 counterpart of native `endsWith`: search only from `str.length - suffix.length` | high, not executed | JsString.EndsWithStricterThanNative | JsString.EndsWithCorrected |

## Left out

- Variable scoping and hoisting demos, the IIFE and block examples (lines 1-45): language semantics with `Math.random`, no logic.
- `UiComponent` and its click handlers (lines 51-70): DOM and event loop.
- Printing snippets, `printCoord`, `logAllArguments`, `selectEntries`, the loops over arrays that only log, and `getOwnPropertyDescriptor` destructuring (lines 47-49, 87-127): they only print or read built-ins.
- `arr.map` with a function expression and with an arrow function (lines 72-78), and method shorthand in object literals (lines 145-159): syntax demos over built-ins, with no logic of their own.
- `Math.max`, `push.apply`, `concat`, `Array.from`, spread and `Array.apply` (lines 129-143, 258-265): thin uses of library calls.
- The `NaN` `indexOf`/`findIndex` demo (lines 254-256) and the numeric library `sqrt`/`square`/`diag` with its consumers (lines 267-311): floating-point behaviour.
- `MyError` (lines 203-208): relies on the host's `Error.apply`.
- Module wiring with `require`/`import`/`export` (lines 267-329): loader concerns.
- JsString.IndexOf: JavaScript strings are UTF-16 code units; here a string is a sequence of Dafny characters. The `position` argument of `indexOf` is modelled only for values within the string.
- DateMatch.MatchPieces: the matcher covers anchored patterns of literals and capturing groups of one-character atoms, which is what the date pattern uses. The `index` and `input` properties of the match array are not modelled.
- PersonPrototype: property values are strings. `Person.prototype` and `Employee.prototype` are the constants PersonProto and EmployeeProto, holding their state after lines 164 and 172-174. `Object.prototype` at the top of the chain and `Employee.prototype.constructor` (line 173) are not modelled. Neither is used by `describe`.
- PersonClass.Employee.constructor: the person part is a separate `Person` object that the employee holds, because Dafny classes do not inherit. In JavaScript it is the same object.
- WordCount.DictStep / WordCount.MapStep: counts are unbounded integers. JavaScript numbers are doubles, so `dict[escapedWord]++` and `count + 1` are exact only up to 2^53; the occurrence counts proved in WordCount.DictAfterCounts and WordCount.MapAfterCounts hold in JavaScript only below 2^53 calls per word.
- OwnProperties: property keys are strings only. `Object.getOwnPropertyNames` skips symbol keys, so symbol-keyed own properties of `source` are never copied, and the model has none.
- OwnProperties: descriptors are opaque values. Attribute checks of `defineProperty` (throwing on non-configurable or non-extensible targets) are not modelled. Neither is the ordering rule that lists integer-like keys first.
