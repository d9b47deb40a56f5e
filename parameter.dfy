/** The Parameter record of src/Parameter.php: one formal parameter of a
    callable, normalised once from what PHP reflection reports and never
    changed afterwards. */
module Parameters {
  import opened Wrappers

  /** A default value as PHP reflection reports it.  Float and array
      defaults are not distinguished from these four. */
  datatype Constant = CNull | CBool(b: bool) | CInt(i: int) | CString(s: string)

  /** What \ReflectionParameter answers about one parameter.
      `declaredType` is None when hasType() is false, and `defaultValue` is
      None when isDefaultValueAvailable() is false. */
  datatype ReflectedParameter = ReflectedParameter(
    name: string,
    isVariadic: bool,
    declaredType: Option<string>,
    isOptional: bool,
    defaultValue: Option<Constant>)

  /** The record itself.  There are no setters: a datatype value cannot be
      updated in place, which is the immutability the PHP class promises. */
  datatype Parameter = Parameter(
    name: string,
    typeName: string,
    variadic: bool,
    optional: bool,
    default: Constant)
  {
    function Name(): string { name }
    predicate HasType() { typeName != "" }
    function Type(): string { typeName }
    predicate IsVariadic() { variadic }
    predicate IsOptional() { optional }
    function GetDefault(): Constant { default }

    /** A record the constructor can produce: a default is kept only for an
        optional parameter. */
    predicate WellFormed() { !optional ==> default == CNull }
  }

  /** The constructor: copies name and variadic flag, keeps the declared
      type's text when there is one, and calls a parameter optional only
      when it is optional AND its default value is available. */
  function FromReflection(rp: ReflectedParameter): (p: Parameter)
    ensures p.Name() == rp.name && p.IsVariadic() == rp.isVariadic
    ensures p.Type() == (if rp.declaredType.Some? then rp.declaredType.value else "")
    ensures p.HasType() <==> rp.declaredType.Some? && rp.declaredType.value != ""
    ensures p.IsOptional() <==> rp.isOptional && rp.defaultValue.Some?
    ensures p.IsOptional() ==> p.GetDefault() == rp.defaultValue.value
    ensures !p.IsOptional() ==> p.GetDefault() == CNull
    ensures p.WellFormed()
  {
    var optional := rp.isOptional && rp.defaultValue.Some?;
    Parameter(
      rp.name,
      if rp.declaredType.Some? then rp.declaredType.value else "",
      rp.isVariadic,
      optional,
      if optional then rp.defaultValue.value else CNull)
  }

  /** A reflection answer that produces a given record: the partner of
      FromReflection. */
  function ToReflection(p: Parameter): (rp: ReflectedParameter)
    ensures rp.name == p.name && rp.isVariadic == p.variadic
    ensures rp.isOptional == p.optional && (rp.defaultValue.Some? <==> p.optional)
  {
    ReflectedParameter(
      p.name,
      p.variadic,
      if p.typeName == "" then None else Some(p.typeName),
      p.optional,
      if p.optional then Some(p.default) else None)
  }

  /** Every well-formed record is what the constructor makes of some
      reflection answer, so WellFormed describes the constructor's image
      exactly. */
  lemma FromReflectionOnto(p: Parameter)
    requires p.WellFormed()
    ensures FromReflection(ToReflection(p)) == p
  {
  }

  /** An optional parameter without an available default is reported as not
      optional, and its default as null. */
  lemma OptionalWithoutDefault(rp: ReflectedParameter)
    requires rp.isOptional && rp.defaultValue.None?
    ensures !FromReflection(rp).IsOptional()
    ensures FromReflection(rp).GetDefault() == CNull
  {
  }

  /** A non-null default is only ever reported for an optional parameter
      whose reflection supplied exactly that default. */
  lemma DefaultOnlyWhenOptional(rp: ReflectedParameter)
    requires FromReflection(rp).GetDefault() != CNull
    ensures rp.isOptional && rp.defaultValue == Some(FromReflection(rp).GetDefault())
  {
  }

  /** Two reflection answers that agree on everything the record keeps give
      the same record: a type reported as present but empty reads as no
      type, and a default is ignored unless the parameter is optional. */
  lemma FromReflectionIgnoresDiscardedFacts(a: ReflectedParameter, b: ReflectedParameter)
    requires a.name == b.name && a.isVariadic == b.isVariadic
    requires (if a.declaredType.Some? then a.declaredType.value else "")
          == (if b.declaredType.Some? then b.declaredType.value else "")
    requires (a.isOptional && a.defaultValue.Some?) == (b.isOptional && b.defaultValue.Some?)
    requires a.isOptional && a.defaultValue.Some? ==> a.defaultValue == b.defaultValue
    ensures FromReflection(a) == FromReflection(b)
  {
  }
}
