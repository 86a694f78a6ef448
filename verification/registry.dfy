/**
  The per-service invocation registry (cacheInvokableInfo): for each
  invocation name, the ordered list of candidates tried during dispatch.
*/
module Registry {
  import opened MetaTypes
  import opened Descriptors

  /** A candidate: a method, or the getter or setter synthesised from a property. */
  datatype Candidate =
    | MethodCandidate(index: int, info: MethodInfo)
    | GetterCandidate(index: int, prop: PropInfo)
    | SetterCandidate(index: int, prop: PropInfo)

  type Registry = map<string, seq<Candidate>>

  /** The candidates under `name`, empty when the name is not registered. */
  function Entry(reg: Registry, name: string): seq<Candidate> {
    if name in reg then reg[name] else []
  }

  /** A method is registered when it is exposed and its descriptor is valid. */
  predicate Registered(m: MetaMethod, resolve: string -> MetaType) {
    Exposed(m) && MakeMethodInfo(m, resolve).valid
  }

  function CandidateOf(m: MetaMethod, resolve: string -> MetaType): Candidate {
    MethodCandidate(m.index, MakeMethodInfo(m, resolve))
  }

  /** One step of the method loop: loose overloads are appended, all others prepended. */
  function AddMethod(reg: Registry, m: MetaMethod, resolve: string -> MetaType): Registry {
    if !Registered(m, resolve) then reg
    else if IsLoose(m) then reg[m.name := Entry(reg, m.name) + [CandidateOf(m, resolve)]]
    else reg[m.name := [CandidateOf(m, resolve)] + Entry(reg, m.name)]
  }

  function AddMethods(reg: Registry, ms: seq<MetaMethod>, resolve: string -> MetaType): Registry
    decreases |ms|
  {
    if |ms| == 0 then reg else AddMethods(AddMethod(reg, ms[0], resolve), ms[1..], resolve)
  }

  /** One step of the property loop: the getter, then the setter, each appended when present. */
  function AddProperty(reg: Registry, p: MetaProperty, resolve: string -> MetaType): Registry {
    var info := MakePropInfo(p, resolve);
    var withGetter :=
      if |info.getterName| > 0
      then reg[info.getterName := Entry(reg, info.getterName) + [GetterCandidate(p.index, info)]]
      else reg;
    if |info.setterName| > 0
    then withGetter[info.setterName := Entry(withGetter, info.setterName) + [SetterCandidate(p.index, info)]]
    else withGetter
  }

  function AddProperties(reg: Registry, ps: seq<MetaProperty>, resolve: string -> MetaType): Registry
    decreases |ps|
  {
    if |ps| == 0 then reg else AddProperties(AddProperty(reg, ps[0], resolve), ps[1..], resolve)
  }

  /** cacheInvokableInfo: every method first, then every property. */
  function BuildRegistry(ms: seq<MetaMethod>, ps: seq<MetaProperty>, resolve: string -> MetaType): Registry {
    AddProperties(AddMethods(map[], ms, resolve), ps, resolve)
  }

  // ----- An independent description of each entry -----

  function Reverse<T>(s: seq<T>): seq<T>
    decreases |s|
  {
    if |s| == 0 then [] else Reverse(s[1..]) + [s[0]]
  }

  /** The candidate a method contributes to the front of the entry `name`: itself if it is a strict overload so named. */
  function StrictOf(m: MetaMethod, name: string, resolve: string -> MetaType): seq<Candidate> {
    if Registered(m, resolve) && !IsLoose(m) && m.name == name then [CandidateOf(m, resolve)] else []
  }

  /** The candidate a method contributes to the back of the entry `name`: itself if it is a loose overload so named. */
  function LooseOf(m: MetaMethod, name: string, resolve: string -> MetaType): seq<Candidate> {
    if Registered(m, resolve) && IsLoose(m) && m.name == name then [CandidateOf(m, resolve)] else []
  }

  /** The strict (non-loose) registered methods called `name`, in declaration order. */
  function StrictNamed(ms: seq<MetaMethod>, name: string, resolve: string -> MetaType): seq<Candidate>
    decreases |ms|
  {
    if |ms| == 0 then [] else StrictOf(ms[0], name, resolve) + StrictNamed(ms[1..], name, resolve)
  }

  /** The loose registered methods called `name`, in declaration order. */
  function LooseNamed(ms: seq<MetaMethod>, name: string, resolve: string -> MetaType): seq<Candidate>
    decreases |ms|
  {
    if |ms| == 0 then [] else LooseOf(ms[0], name, resolve) + LooseNamed(ms[1..], name, resolve)
  }

  /** The accessors of one property that are called `name`: its getter, then its setter. */
  function AccessorsOf(p: MetaProperty, name: string, resolve: string -> MetaType): seq<Candidate> {
    var info := MakePropInfo(p, resolve);
    (if p.readable && info.getterName == name then [GetterCandidate(p.index, info)] else [])
    + (if p.writable && info.setterName == name then [SetterCandidate(p.index, info)] else [])
  }

  /** The accessors called `name`, in property order. */
  function AccessorsNamed(ps: seq<MetaProperty>, name: string, resolve: string -> MetaType): seq<Candidate>
    decreases |ps|
  {
    if |ps| == 0 then [] else AccessorsOf(ps[0], name, resolve) + AccessorsNamed(ps[1..], name, resolve)
  }

  /** The effect of one method step on the entry under `name`. */
  lemma AddMethodEntry(reg: Registry, m: MetaMethod, resolve: string -> MetaType, name: string)
    ensures Entry(AddMethod(reg, m, resolve), name)
         == StrictOf(m, name, resolve) + Entry(reg, name) + LooseOf(m, name, resolve)
  {
    var c := CandidateOf(m, resolve);
    if !Registered(m, resolve) || m.name != name {
      assert StrictOf(m, name, resolve) == [] && LooseOf(m, name, resolve) == [];
      assert Entry(AddMethod(reg, m, resolve), name) == Entry(reg, name);
    } else if IsLoose(m) {
      assert StrictOf(m, name, resolve) == [] && LooseOf(m, name, resolve) == [c];
    } else {
      assert StrictOf(m, name, resolve) == [c] && LooseOf(m, name, resolve) == [];
    }
  }

  lemma ReverseShortPrefix<T>(a: seq<T>, b: seq<T>)
    requires |a| <= 1
    ensures Reverse(a + b) == Reverse(b) + a
  {
    if |a| == 1 {
      assert (a + b)[1..] == b;
    } else {
      assert a + b == b;
    }
  }

  lemma {:induction false} AddMethodsOrder(reg: Registry, ms: seq<MetaMethod>, resolve: string -> MetaType, name: string)
    ensures Entry(AddMethods(reg, ms, resolve), name)
         == Reverse(StrictNamed(ms, name, resolve)) + Entry(reg, name) + LooseNamed(ms, name, resolve)
    decreases |ms|
  {
    if |ms| > 0 {
      var m := ms[0];
      var reg1 := AddMethod(reg, m, resolve);
      var front, back := StrictOf(m, name, resolve), LooseOf(m, name, resolve);
      var strictRest, looseRest := StrictNamed(ms[1..], name, resolve), LooseNamed(ms[1..], name, resolve);
      AddMethodEntry(reg, m, resolve, name);
      assert StrictNamed(ms, name, resolve) == front + strictRest;
      ReverseShortPrefix(front, strictRest);
      AddMethodsOrder(reg1, ms[1..], resolve, name);
      Regroup(Reverse(strictRest), front, Entry(reg, name), back, looseRest);
    }
  }

  lemma Regroup<T>(a: seq<T>, b: seq<T>, c: seq<T>, d: seq<T>, e: seq<T>)
    ensures a + (b + c + d) + e == (a + b) + c + (d + e)
  {
  }

  /** The effect of one property step on the entry under `name`. */
  lemma AddPropertyEntry(reg: Registry, p: MetaProperty, resolve: string -> MetaType, name: string)
    ensures Entry(AddProperty(reg, p, resolve), name) == Entry(reg, name) + AccessorsOf(p, name, resolve)
  {
    var info := MakePropInfo(p, resolve);
    if p.readable && p.writable {
      assert info.getterName[0] == 'g' && info.setterName[0] == 's';
    }
  }

  lemma {:induction false} AddPropertiesOrder(reg: Registry, ps: seq<MetaProperty>, resolve: string -> MetaType, name: string)
    ensures Entry(AddProperties(reg, ps, resolve), name) == Entry(reg, name) + AccessorsNamed(ps, name, resolve)
    decreases |ps|
  {
    if |ps| > 0 {
      var reg1 := AddProperty(reg, ps[0], resolve);
      AddPropertiesOrder(reg1, ps[1..], resolve, name);
      AddPropertyEntry(reg, ps[0], resolve, name);
    }
  }

  /**
    Registry ordering. Under every name, the strict overloads come first in
    reverse declaration order (each was prepended), then the loose overloads
    in declaration order (each was appended), then the synthesised accessors
    in property order. Methods that are not exposed or whose descriptor is
    invalid never appear.
  */
  lemma RegistryOrder(ms: seq<MetaMethod>, ps: seq<MetaProperty>, resolve: string -> MetaType, name: string)
    ensures Entry(BuildRegistry(ms, ps, resolve), name)
         == Reverse(StrictNamed(ms, name, resolve)) + LooseNamed(ms, name, resolve) + AccessorsNamed(ps, name, resolve)
  {
    AddMethodsOrder(map[], ms, resolve, name);
    AddPropertiesOrder(AddMethods(map[], ms, resolve), ps, resolve, name);
  }

  // ----- Well-formedness of the built registry -----

  /** A candidate belongs under `key`: its name is the key, and a method's descriptor is well formed. */
  predicate Fits(key: string, c: Candidate) {
    match c
    case MethodCandidate(_, info) => info.name == key && WellFormedMethod(info)
    case GetterCandidate(_, prop) => prop.getterName == key
    case SetterCandidate(_, prop) => prop.setterName == key
  }

  /** Every registered name has at least one candidate, and every candidate fits its name. */
  predicate WellFormedRegistry(reg: Registry) {
    forall key :: key in reg ==> |reg[key]| > 0 && forall i :: 0 <= i < |reg[key]| ==> Fits(key, reg[key][i])
  }

  /** Filing a fitting candidate at either end of an entry keeps a registry well formed. */
  lemma FileFitting(reg: Registry, key: string, c: Candidate, atFront: bool)
    requires WellFormedRegistry(reg) && Fits(key, c)
    ensures WellFormedRegistry(reg[key := if atFront then [c] + Entry(reg, key) else Entry(reg, key) + [c]])
  {
    var e := Entry(reg, key);
    var e1 := if atFront then [c] + e else e + [c];
    assert forall i :: 0 <= i < |e| ==> Fits(key, e[i]);
    assert forall i :: 0 <= i < |e1| ==> Fits(key, e1[i]) by {
      forall i | 0 <= i < |e1|
        ensures Fits(key, e1[i])
      {
        if atFront && i > 0 {
          assert e1[i] == e[i - 1];
        } else if !atFront && i < |e| {
          assert e1[i] == e[i];
        }
      }
    }
  }

  lemma AddMethodWellFormed(reg: Registry, m: MetaMethod, resolve: string -> MetaType)
    requires WellFormedRegistry(reg)
    ensures WellFormedRegistry(AddMethod(reg, m, resolve))
  {
    if Registered(m, resolve) {
      assert Fits(m.name, CandidateOf(m, resolve));
      FileFitting(reg, m.name, CandidateOf(m, resolve), !IsLoose(m));
    }
  }

  lemma {:induction false} AddMethodsWellFormed(reg: Registry, ms: seq<MetaMethod>, resolve: string -> MetaType)
    requires WellFormedRegistry(reg)
    ensures WellFormedRegistry(AddMethods(reg, ms, resolve))
    decreases |ms|
  {
    if |ms| > 0 {
      AddMethodWellFormed(reg, ms[0], resolve);
      AddMethodsWellFormed(AddMethod(reg, ms[0], resolve), ms[1..], resolve);
    }
  }

  lemma AddPropertyWellFormed(reg: Registry, p: MetaProperty, resolve: string -> MetaType)
    requires WellFormedRegistry(reg)
    ensures WellFormedRegistry(AddProperty(reg, p, resolve))
  {
    var info := MakePropInfo(p, resolve);
    var withGetter :=
      if |info.getterName| > 0
      then reg[info.getterName := Entry(reg, info.getterName) + [GetterCandidate(p.index, info)]]
      else reg;
    if |info.getterName| > 0 {
      FileFitting(reg, info.getterName, GetterCandidate(p.index, info), false);
    }
    if |info.setterName| > 0 {
      FileFitting(withGetter, info.setterName, SetterCandidate(p.index, info), false);
    }
  }

  lemma {:induction false} AddPropertiesWellFormed(reg: Registry, ps: seq<MetaProperty>, resolve: string -> MetaType)
    requires WellFormedRegistry(reg)
    ensures WellFormedRegistry(AddProperties(reg, ps, resolve))
    decreases |ps|
  {
    if |ps| > 0 {
      AddPropertyWellFormed(reg, ps[0], resolve);
      AddPropertiesWellFormed(AddProperty(reg, ps[0], resolve), ps[1..], resolve);
    }
  }

  /**
    The built registry is well formed: a name is registered exactly when it
    has candidates, every method candidate holds a valid descriptor filed
    under its own name, and every accessor is filed under its accessor name.
  */
  lemma BuildRegistryWellFormed(ms: seq<MetaMethod>, ps: seq<MetaProperty>, resolve: string -> MetaType)
    ensures WellFormedRegistry(BuildRegistry(ms, ps, resolve))
  {
    AddMethodsWellFormed(map[], ms, resolve);
    AddPropertiesWellFormed(AddMethods(map[], ms, resolve), ps, resolve);
  }

  /** Within every entry of a built registry, no method candidate follows an accessor. */
  lemma AccessorsComeLast(ms: seq<MetaMethod>, ps: seq<MetaProperty>, resolve: string -> MetaType, name: string, i: int, j: int)
    requires 0 <= i < j < |Entry(BuildRegistry(ms, ps, resolve), name)|
    requires !Entry(BuildRegistry(ms, ps, resolve), name)[i].MethodCandidate?
    ensures !Entry(BuildRegistry(ms, ps, resolve), name)[j].MethodCandidate?
  {
    RegistryOrder(ms, ps, resolve, name);
    AllMethodCandidates(ms, name, resolve);
    NoMethodAccessors(ps, name, resolve);
    MethodsThenAccessors(
      Reverse(StrictNamed(ms, name, resolve)) + LooseNamed(ms, name, resolve),
      AccessorsNamed(ps, name, resolve), i, j);
  }

  lemma MethodsThenAccessors(methods: seq<Candidate>, accessors: seq<Candidate>, i: int, j: int)
    requires forall c :: c in methods ==> c.MethodCandidate?
    requires forall c :: c in accessors ==> !c.MethodCandidate?
    requires 0 <= i < j < |methods + accessors|
    requires !(methods + accessors)[i].MethodCandidate?
    ensures !(methods + accessors)[j].MethodCandidate?
  {
    var e := methods + accessors;
    assert forall k :: 0 <= k < |methods| ==> e[k] == methods[k] && e[k] in methods;
    assert i >= |methods|;
    assert e[j] == accessors[j - |methods|] && e[j] in accessors;
  }

  lemma {:induction false} ReverseMembers<T>(s: seq<T>)
    ensures |Reverse(s)| == |s|
    ensures forall x :: x in Reverse(s) <==> x in s
    decreases |s|
  {
    if |s| > 0 {
      ReverseMembers(s[1..]);
      assert s == [s[0]] + s[1..];
    }
  }

  lemma {:induction false} AllMethodCandidates(ms: seq<MetaMethod>, name: string, resolve: string -> MetaType)
    ensures forall c :: c in Reverse(StrictNamed(ms, name, resolve)) + LooseNamed(ms, name, resolve) ==> c.MethodCandidate?
    decreases |ms|
  {
    ReverseMembers(StrictNamed(ms, name, resolve));
    if |ms| > 0 {
      AllMethodCandidates(ms[1..], name, resolve);
      ReverseMembers(StrictNamed(ms[1..], name, resolve));
      assert forall c :: c in StrictOf(ms[0], name, resolve) + LooseOf(ms[0], name, resolve) ==> c.MethodCandidate?;
    }
  }

  lemma {:induction false} NoMethodAccessors(ps: seq<MetaProperty>, name: string, resolve: string -> MetaType)
    ensures forall c :: c in AccessorsNamed(ps, name, resolve) ==> !c.MethodCandidate?
    decreases |ps|
  {
    if |ps| > 0 {
      NoMethodAccessors(ps[1..], name, resolve);
      assert forall c :: c in AccessorsOf(ps[0], name, resolve) ==> !c.MethodCandidate?;
    }
  }
}
