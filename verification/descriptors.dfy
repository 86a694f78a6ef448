/**
  Method and property descriptors. The reflection provider's view of the
  backing object is an explicit input (`MetaMethod`, `MetaProperty`), and
  QMetaType::type, which resolves a type name, is the `resolve` parameter.
*/
module Descriptors {
  import opened Json
  import opened MetaTypes
  import opened Text

  datatype Access = Private | Protected | Public
  datatype MethodKind = PlainMethod | Signal | Slot

  /** One declared parameter as reflection reports it: its type name (with `&` for a reference) and its name. */
  datatype RawParameter = RawParameter(typeName: string, name: string)

  /** One method of the backing object as reflection reports it. */
  datatype MetaMethod = MetaMethod(
    index: int,
    name: string,
    access: Access,
    kind: MethodKind,
    returnType: MetaType,
    parameters: seq<RawParameter>)

  /** One property of the backing object as reflection reports it. */
  datatype MetaProperty = MetaProperty(index: int, name: string, typeName: string, readable: bool, writable: bool)

  datatype ParameterInfo = ParameterInfo(name: string, metaType: MetaType, jsType: Tag, isOut: bool)

  datatype MethodInfo = MethodInfo(
    name: string,
    returnType: MetaType,
    parameters: seq<ParameterInfo>,
    valid: bool,
    hasOut: bool)

  datatype PropInfo = PropInfo(name: string, metaType: MetaType, typeName: string, getterName: string, setterName: string)

  /** A parameter whose type name ends in `&` is an out-parameter. */
  predicate IsOutType(typeName: string) {
    EndsWith(typeName, '&')
  }

  /** The type name with a trailing `&` removed. */
  function BaseTypeName(typeName: string): string {
    if IsOutType(typeName) then typeName[..|typeName| - 1] else typeName
  }

  /** The ParameterInfo constructor: the wire tag is derived from the resolved native type. */
  function MakeParameterInfo(name: string, t: MetaType, isOut: bool): ParameterInfo {
    ParameterInfo(name, t, JsTypeOf(t), isOut)
  }

  /** The descriptor one raw parameter resolves to. */
  function Describe(p: RawParameter, resolve: string -> MetaType): ParameterInfo {
    MakeParameterInfo(p.name, resolve(BaseTypeName(p.typeName)), IsOutType(p.typeName))
  }

  predicate Resolvable(p: RawParameter, resolve: string -> MetaType) {
    resolve(BaseTypeName(p.typeName)) != UnknownType
  }

  datatype ParameterScan = ParameterScan(parameters: seq<ParameterInfo>, hasOut: bool, valid: bool)

  /**
    The parameter loop of the MethodInfo constructor: each parameter is
    resolved in order and the scan stops at the first unresolvable one.
  */
  function ScanParameters(raw: seq<RawParameter>, resolve: string -> MetaType): (r: ParameterScan)
    decreases |raw|
    ensures r.valid <==> forall i :: 0 <= i < |raw| ==> Resolvable(raw[i], resolve)
    ensures r.valid ==> |r.parameters| == |raw|
    ensures r.valid ==> forall i :: 0 <= i < |raw| ==> r.parameters[i] == Describe(raw[i], resolve)
    ensures r.valid ==> (r.hasOut <==> exists i :: 0 <= i < |raw| && IsOutType(raw[i].typeName))
  {
    if |raw| == 0 then ParameterScan([], false, true)
    else
      var out := IsOutType(raw[0].typeName);
      if !Resolvable(raw[0], resolve) then ParameterScan([], out, false)
      else
        var rest := ScanParameters(raw[1..], resolve);
        assert forall i :: 1 <= i < |raw| ==> raw[i] == raw[1..][i - 1];
        ParameterScan([Describe(raw[0], resolve)] + rest.parameters, out || rest.hasOut, rest.valid)
  }

  /**
    The MethodInfo constructor. A descriptor is valid exactly when its return
    type and every parameter type resolve; a valid descriptor lists one
    parameter per declared parameter, flags a trailing `&` as an
    out-parameter, and has `hasOut` set exactly when some parameter is one.
  */
  function MakeMethodInfo(m: MetaMethod, resolve: string -> MetaType): (info: MethodInfo)
    ensures info.name == m.name
    ensures info.valid <==>
      m.returnType != UnknownType && forall i :: 0 <= i < |m.parameters| ==> Resolvable(m.parameters[i], resolve)
    ensures info.valid ==> info.returnType == m.returnType && |info.parameters| == |m.parameters|
    ensures info.valid ==> forall i :: 0 <= i < |m.parameters| ==>
      info.parameters[i].name == m.parameters[i].name &&
      info.parameters[i].isOut == IsOutType(m.parameters[i].typeName) &&
      info.parameters[i].metaType == resolve(BaseTypeName(m.parameters[i].typeName)) &&
      info.parameters[i].jsType == JsTypeOf(info.parameters[i].metaType)
    ensures info.valid ==> (info.hasOut <==> exists i :: 0 <= i < |info.parameters| && info.parameters[i].isOut)
    ensures info.valid ==> WellFormedMethod(info)
  {
    if m.returnType == UnknownType then MethodInfo(m.name, m.returnType, [], false, false)
    else
      var scan := ScanParameters(m.parameters, resolve);
      assert scan.valid ==> forall i :: 0 <= i < |m.parameters| ==> scan.parameters[i] == Describe(m.parameters[i], resolve);
      MethodInfo(m.name, m.returnType, scan.parameters, scan.valid, scan.hasOut)
  }

  /** What every registered method descriptor satisfies. */
  predicate WellFormedMethod(info: MethodInfo) {
    && info.valid
    && info.returnType != UnknownType
    && (info.hasOut <==> exists i :: 0 <= i < |info.parameters| && info.parameters[i].isOut)
    && (forall i :: 0 <= i < |info.parameters| ==> info.parameters[i].jsType == JsTypeOf(info.parameters[i].metaType))
  }

  /**
    The PropInfo constructor. The accessor names are "get"/"set" followed by
    the property name with its first character upper-cased, and are present
    (non-empty) exactly for readable respectively writable properties.
  */
  function MakePropInfo(p: MetaProperty, resolve: string -> MetaType): (info: PropInfo)
    ensures info.name == Capitalize(p.name)
    ensures info.metaType == resolve(p.typeName)
    ensures |info.getterName| > 0 <==> p.readable
    ensures |info.setterName| > 0 <==> p.writable
    ensures p.readable ==> info.getterName == "get" + Capitalize(p.name)
    ensures p.writable ==> info.setterName == "set" + Capitalize(p.name)
  {
    var name := Capitalize(p.name);
    PropInfo(
      name,
      resolve(p.typeName),
      p.typeName,
      if p.readable then "get" + name else "",
      if p.writable then "set" + name else "")
  }

  /** A method is scanned when it is public or a signal. */
  predicate Exposed(m: MetaMethod) {
    m.access == Public || m.kind == Signal
  }

  /** methodSignature: the name followed by the parenthesised, comma-separated parameter types. */
  function Signature(m: MetaMethod): string {
    m.name + "(" + JoinComma(seq(|m.parameters|, i requires 0 <= i < |m.parameters| => m.parameters[i].typeName)) + ")"
  }

  /** A "loose" overload: one whose signature mentions `QVariant` anywhere. */
  predicate IsLoose(m: MetaMethod) {
    Contains(Signature(m), "QVariant")
  }
}
