/** `CommonBean.toString`: the simple class name, then `name=value` for the key, required and
    info fields in that order, separated by commas and enclosed in parentheses. */
module BeanRender {
  import opened Wrappers
  import opened JavaLang
  import opened BeanValues
  import opened BeanMetadata

  /** The fields `toString` lists: keys in key order, then required, then info fields. */
  function RenderFields(m: Fields): seq<FieldDecl>
  {
    m.keyFields + m.requiredFields + m.infoFields
  }

  /** The text of a value read from a property: a date through the pattern `yyyy-MM-dd'T'HH:mm:ss` in the
      local time zone, anything else as `String.valueOf`. */
  function ValueText(env: Platform, v: Value): string
  {
    if v.Date? then FormatDate(env.localTime(v.millis)) else JavaText(env, v)
  }

  /** What is appended for a property that cannot be read: the exception's class and message
      in brackets, as the bean introspection library reports an unknown property. */
  function ReadFailureText(cls: ClassDecl, name: string): string
  {
    "[java.lang.NoSuchMethodException:Unknown property '" + name + "' on class 'class " + cls.name + "']"
  }

  /** What is appended for property `name` of bean `b`: its value or the read failure. */
  function PropertyText(env: Platform, b: Bean, name: string): string
  {
    if name in b.props then ValueText(env, b.props[name]) else ReadFailureText(b.cls, name)
  }

  /** `name=value` for one field of bean `b`. */
  function FieldText(env: Platform, b: Bean, f: FieldDecl): (r: string)
    ensures |r| > |f.name| && r[..|f.name|] == f.name && r[|f.name|] == '='
  {
    f.name + "=" + PropertyText(env, b, f.name)
  }

  /** The field texts of `fs`, separated by commas. */
  function Joined(env: Platform, b: Bean, fs: seq<FieldDecl>): (r: string)
    ensures |r| == 0 <==> fs == []
    decreases |fs|
  {
    if fs == [] then ""
    else
      var init := Joined(env, b, fs[..|fs| - 1]);
      init + (if |init| != 0 then "," else "") + FieldText(env, b, fs[|fs| - 1])
  }

  /** `b.toString()`. */
  function Render(env: Platform, b: Bean): string
  {
    b.cls.simpleName + "(" + Joined(env, b, RenderFields(Metadata(b))) + ")"
  }

  /** The loop of `toString` over a field list. */
  method RenderLoop(env: Platform, b: Bean, fields: seq<FieldDecl>) returns (text: string)
    ensures text == Joined(env, b, fields)
  {
    var buf := "";
    var i := 0;
    assert fields[..0] == [];
    while i < |fields|
      invariant 0 <= i <= |fields|
      invariant buf == Joined(env, b, fields[..i])
    {
      var field := fields[i];
      ghost var prev := buf;
      var separator := if |buf| != 0 then "," else "";
      buf := buf + (separator + field.name + "=");
      var value := PropertyText(env, b, field.name);
      buf := buf + value;
      AppendField(prev, separator, field.name, value, FieldText(env, b, field));
      JoinedStep(env, b, fields, i);
      i := i + 1;
    }
    assert fields[..i] == fields;
    text := buf;
  }

  lemma AppendField(prev: string, separator: string, name: string, value: string, piece: string)
    requires name + "=" + value == piece
    ensures prev + (separator + name + "=") + value == prev + separator + piece
  {
  }

  lemma JoinedStep(env: Platform, b: Bean, fs: seq<FieldDecl>, i: nat)
    requires i < |fs|
    ensures Joined(env, b, fs[..i + 1]) ==
      var init := Joined(env, b, fs[..i]); init + (if |init| != 0 then "," else "") + FieldText(env, b, fs[i])
  {
    assert fs[..i + 1][..i] == fs[..i];
  }

  /** `toString()`, fetching the field lists through the metadata cache. */
  method ToString(registry: Registry, env: Platform, b: Bean) returns (text: string)
    requires registry.Valid() && registry.Knows(b.cls)
    modifies registry
    ensures registry.Valid() && registry.Knows(b.cls)
    ensures b.cls.name in old(registry.entries) ==> registry.entries == old(registry.entries)
    ensures text == Render(env, b)
  {
    var fields := registry.GetAnnotatedFields(b.cls);
    var body := RenderLoop(env, b, fields.keyFields + fields.requiredFields + fields.infoFields);
    text := b.cls.simpleName + "(" + body + ")";
  }

  /** Every listed field's text appears, in order and separated by single commas: cutting
      off the last field's text leaves the text of the others followed by a comma. */
  lemma JoinedLast(env: Platform, b: Bean, fs: seq<FieldDecl>)
    requires |fs| >= 2
    ensures var r, last := Joined(env, b, fs), FieldText(env, b, fs[|fs| - 1]);
      |r| > |last| && r[|r| - |last|..] == last && r[..|r| - |last|] == Joined(env, b, fs[..|fs| - 1]) + ","
  {
  }

  /** A class with no key, required or info field renders as its simple name and `()`. */
  lemma RenderEmpty(env: Platform, b: Bean)
    requires RenderFields(Metadata(b)) == []
    ensures Render(env, b) == b.cls.simpleName + "()"
  {
  }

  /** The text depends on nothing but the listed fields: two beans of one class that can read
      the same listed properties with the same values render alike. */
  lemma {:induction false} JoinedReadsOnlyFields(env: Platform, a: Bean, b: Bean, fs: seq<FieldDecl>)
    requires a.cls == b.cls
    requires forall f :: f in fs ==> (f.name in a.props <==> f.name in b.props)
    requires forall f :: f in fs && f.name in a.props ==> a.props[f.name] == b.props[f.name]
    ensures Joined(env, a, fs) == Joined(env, b, fs)
    decreases |fs|
  {
    if fs != [] {
      JoinedReadsOnlyFields(env, a, b, fs[..|fs| - 1]);
      assert fs[|fs| - 1] in fs;
    }
  }

  lemma RenderReadsOnlyListedFields(env: Platform, a: Bean, b: Bean)
    requires a.cls == b.cls
    requires forall f :: f in RenderFields(Metadata(a)) ==> (f.name in a.props <==> f.name in b.props)
    requires forall f :: f in RenderFields(Metadata(a)) && f.name in a.props ==> a.props[f.name] == b.props[f.name]
    ensures Render(env, a) == Render(env, b)
  {
    JoinedReadsOnlyFields(env, a, b, RenderFields(Metadata(a)));
  }

  /** A bean with two listed fields `f` and `g` renders as `Name(f=...,g=...)`. */
  lemma RenderTwoFields(env: Platform, b: Bean, f: FieldDecl, g: FieldDecl)
    requires RenderFields(Metadata(b)) == [f, g]
    ensures Render(env, b) ==
      b.cls.simpleName + "(" + f.name + "=" + PropertyText(env, b, f.name) + "," + g.name + "=" + PropertyText(env, b, g.name) + ")"
  {
    JoinedTwo(env, b, f, g);
    var x, y := FieldText(env, b, f), FieldText(env, b, g);
    var p := b.cls.simpleName + "(";
    var px, py := PropertyText(env, b, f.name), PropertyText(env, b, g.name);
    Concat3(p, x + ",", y);
    Concat3(p, x, ",");
    Concat3(p, f.name + "=", px);
    Concat3(p, f.name, "=");
    var q := p + f.name + "=" + px + ",";
    Concat3(q, g.name + "=", py);
    Concat3(q, g.name, "=");
  }

  lemma JoinedTwo(env: Platform, b: Bean, f: FieldDecl, g: FieldDecl)
    ensures Joined(env, b, [f, g]) == FieldText(env, b, f) + "," + FieldText(env, b, g)
  {
    var fs := [f, g];
    assert fs[..|fs| - 1] == [f] && fs[|fs| - 1] == g;
    JoinedOne(env, b, f);
  }

  lemma JoinedOne(env: Platform, b: Bean, f: FieldDecl)
    ensures Joined(env, b, [f]) == FieldText(env, b, f)
  {
    assert [f][..0] == [];
  }

  lemma Concat3(a: string, b: string, c: string)
    ensures a + (b + c) == a + b + c
  {
  }
}
