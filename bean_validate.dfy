/** `CommonBean.validate`: every key and required field must hold a value, and a string or a
    list must not be empty. The first offending field, in key-then-required order, decides the
    exception. */
module BeanValidate {
  import opened Wrappers
  import opened BeanValues
  import opened BeanMetadata

  /** The two exceptions `validate` throws. */
  datatype ValidationError =
      /** `IllegalArgumentException`: the field is null, an empty string or an empty list */
    | RequiredValueMissing(field: string)
      /** `RuntimeException`: the property could not be read */
    | FieldAccessError(field: string)

  function Message(e: ValidationError): string
  {
    match e
    case RequiredValueMissing(n) => "Required value missing: " + n
    case FieldAccessError(n) => "Error getting field '" + n + "' value"
  }

  /** The fields `validate` checks: keys in key order, then required fields. */
  function CheckedFields(m: Fields): seq<FieldDecl>
  {
    m.keyFields + m.requiredFields
  }

  /** A value that counts as missing. */
  predicate Blank(v: Value)
  {
    v == Null || v == Str("") || v == List([])
  }

  /** Whether one field passes, and the exception it raises if not. */
  function CheckField(b: Bean, f: FieldDecl): Outcome<ValidationError>
  {
    if f.name !in b.props then Fail(FieldAccessError(f.name))
    else if Blank(b.props[f.name]) then Fail(RequiredValueMissing(f.name))
    else Pass
  }

  /** The outcome of checking `fs` in order, stopping at the first failure. */
  function CheckFields(b: Bean, fs: seq<FieldDecl>): Outcome<ValidationError>
    decreases |fs|
  {
    if fs == [] then Pass
    else if CheckField(b, fs[0]).Fail? then CheckField(b, fs[0])
    else CheckFields(b, fs[1..])
  }

  /** `b.validate()`: `Pass` when it returns normally. */
  function Validate(b: Bean): Outcome<ValidationError>
  {
    CheckFields(b, CheckedFields(Metadata(b)))
  }

  /** The loop of `validate` over a field list. */
  method CheckLoop(b: Bean, fields: seq<FieldDecl>) returns (r: Outcome<ValidationError>)
    ensures r == CheckFields(b, fields)
  {
    var i := 0;
    while i < |fields|
      invariant 0 <= i <= |fields|
      invariant CheckFields(b, fields[i..]) == CheckFields(b, fields)
    {
      var field := fields[i];
      assert fields[i..][1..] == fields[i + 1..];
      if field.name !in b.props {
        return Fail(FieldAccessError(field.name));
      }
      var value := b.props[field.name];
      if value == Null {
        return Fail(RequiredValueMissing(field.name));
      }
      if value.Str? && |value.s| == 0 {
        return Fail(RequiredValueMissing(field.name));
      } else if value.List? && |value.elems| == 0 {
        return Fail(RequiredValueMissing(field.name));
      }
      i := i + 1;
    }
    return Pass;
  }

  /** `validate()`, fetching the field lists through the metadata cache. */
  method ValidateBean(registry: Registry, b: Bean) returns (r: Outcome<ValidationError>)
    requires registry.Valid() && registry.Knows(b.cls)
    modifies registry
    ensures registry.Valid() && registry.Knows(b.cls)
    ensures b.cls.name in old(registry.entries) ==> registry.entries == old(registry.entries)
    ensures r == Validate(b)
  {
    var fields := registry.GetAnnotatedFields(b.cls);
    r := CheckLoop(b, fields.keyFields + fields.requiredFields);
  }

  /** A list passes exactly when every field in it is readable and not blank; when it fails,
      the exception names the first field that is not, and says which way it fails. */
  lemma {:induction false} CheckFieldsMeaning(b: Bean, fs: seq<FieldDecl>)
    ensures CheckFields(b, fs).Pass? <==>
              forall f :: f in fs ==> f.name in b.props && !Blank(b.props[f.name])
    ensures CheckFields(b, fs).Fail? ==>
              exists i :: 0 <= i < |fs| && CheckFields(b, fs) == CheckField(b, fs[i]) &&
                (forall j :: 0 <= j < i ==> CheckField(b, fs[j]).Pass?)
    decreases |fs|
  {
    if fs != [] {
      CheckFieldsMeaning(b, fs[1..]);
      assert forall f :: f in fs <==> f == fs[0] || f in fs[1..];
      if CheckField(b, fs[0]).Pass? && CheckFields(b, fs).Fail? {
        var i :| 0 <= i < |fs[1..]| && CheckFields(b, fs[1..]) == CheckField(b, fs[1..][i]) &&
          (forall j :: 0 <= j < i ==> CheckField(b, fs[1..][j]).Pass?);
        assert CheckFields(b, fs) == CheckField(b, fs[i + 1]);
        assert forall j :: 0 <= j < i + 1 ==> CheckField(b, fs[j]).Pass? by {
          forall j | 0 <= j < i + 1 ensures CheckField(b, fs[j]).Pass? {
            if j > 0 { assert fs[j] == fs[1..][j - 1]; }
          }
        }
      }
      if CheckField(b, fs[0]).Fail? {
        assert CheckFields(b, fs) == CheckField(b, fs[0]);
      }
    }
  }

  /** So a bean passes `validate` exactly when every key and required field can be read and
      holds a value that is not null, not an empty string and not an empty list. */
  lemma ValidateMeaning(b: Bean)
    ensures Validate(b).Pass? <==>
              forall f :: f in CheckedFields(Metadata(b)) ==> f.name in b.props && !Blank(b.props[f.name])
  {
    CheckFieldsMeaning(b, CheckedFields(Metadata(b)));
  }

  /** Info fields and unannotated fields never make `validate` fail. */
  lemma ValidateIgnoresOtherFields(b: Bean, name: string, v: Value)
    requires forall f :: f in CheckedFields(Metadata(b)) ==> f.name != name
    ensures Validate(Bean(b.cls, b.props[name := v])) == Validate(b)
  {
    var b' := Bean(b.cls, b.props[name := v]);
    var fs := CheckedFields(Metadata(b));
    assert forall f :: f in fs ==> CheckField(b', f) == CheckField(b, f);
    CheckFieldsSameOutcome(b, b', fs);
  }

  lemma {:induction false} CheckFieldsSameOutcome(b: Bean, b': Bean, fs: seq<FieldDecl>)
    requires forall f :: f in fs ==> CheckField(b', f) == CheckField(b, f)
    ensures CheckFields(b', fs) == CheckFields(b, fs)
    decreases |fs|
  {
    if fs != [] {
      assert fs[0] in fs;
      assert forall f :: f in fs[1..] ==> f in fs;
      CheckFieldsSameOutcome(b, b', fs[1..]);
    }
  }

  /** Two fields: the first one's failure wins. */
  lemma CheckTwoFields(b: Bean, f: FieldDecl, g: FieldDecl)
    ensures CheckFields(b, [f, g]) == if CheckField(b, f).Fail? then CheckField(b, f) else CheckField(b, g)
  {
    var fs := [f, g];
    assert fs[0] == f && fs[1..] == [g] && [g][0] == g && [g][1..] == [];
    if CheckField(b, f).Pass? {
      assert CheckFields(b, fs) == CheckFields(b, [g]);
      assert CheckFields(b, [g]) == CheckField(b, g);
    }
  }
}
