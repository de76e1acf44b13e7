/**
 * Schema validation errors (backend/qg/schema.go): the message of a type
 * validation error and the lookup that precedes validation.
 *
 * The JSON Typedef validator and JSON marshalling are outside this module;
 * they appear as oracles.
 */
module Schema {
  import opened Wrappers

  /** strings.Join with separator ".". */
  function Join(segs: seq<string>): (r: string)
    ensures segs == [] ==> r == ""
    ensures |segs| == 1 ==> r == segs[0]
    ensures |segs| > 1 ==> r == segs[0] + "." + Join(segs[1..])
    decreases |segs|
  {
    if segs == [] then ""
    else if |segs| == 1 then segs[0]
    else segs[0] + "." + Join(segs[1..])
  }

  predicate NoDot(s: string) {
    forall i :: 0 <= i < |s| ==> s[i] != '.'
  }

  /** The position of the first '.', or the length when there is none. */
  function FirstDot(s: string): (i: nat)
    ensures i <= |s|
    ensures i < |s| ==> s[i] == '.'
    ensures forall j :: 0 <= j < i ==> s[j] != '.'
    decreases |s|
  {
    if s == [] then 0
    else if s[0] == '.' then 0
    else 1 + FirstDot(s[1..])
  }

  /** strings.Split on ".": the pieces between the dots. */
  function Split(s: string): (r: seq<string>)
    ensures |r| >= 1
    ensures forall i :: 0 <= i < |r| ==> NoDot(r[i])
    decreases |s|
  {
    var i := FirstDot(s);
    if i == |s| then [s] else [s[..i]] + Split(s[i + 1..])
  }

  /** The instance path as TypeValidationError renders it: "$", then the
      segments after a dot when there are any. */
  function RenderPath(instancePath: seq<string>): (r: string)
    ensures r == "$" <==> instancePath == []
    ensures instancePath != [] ==> |r| == 2 + |Join(instancePath)|
    ensures instancePath != [] ==> r[..2] == "$." && r[2..] == Join(instancePath)
  {
    var path := "$";
    if |instancePath| > 0 then path + "." + Join(instancePath) else path
  }

  /** The error the validator reports: where in the value, and which rule of
      the schema. */
  datatype ValidateError = ValidateError(instancePath: seq<string>, schemaPath: seq<string>)

  /** TypeValidationError.Error. */
  function ErrorText(e: ValidateError): (r: string)
    ensures var p := RenderPath(e.instancePath);
      && |r| == 12 + |p| + |Join(e.schemaPath)|
      && r[..9] == "error at " && r[9..9 + |p|] == p
      && r[9 + |p|..11 + |p|] == " (" && r[11 + |p|..|r| - 1] == Join(e.schemaPath) && r[|r| - 1] == ')'
  {
    "error at " + RenderPath(e.instancePath) + " (" + Join(e.schemaPath) + ")"
  }

  /** Reads a rendered instance path back. */
  function ParsePath(s: string): Option<seq<string>> {
    if s == "$" then Some([])
    else if |s| >= 2 && s[..2] == "$." then Some(Split(s[2..]))
    else None
  }

  /** Splitting the joined segments gives them back when none contains a
      dot. */
  lemma {:induction false} SplitJoin(segs: seq<string>)
    requires segs != []
    requires forall i :: 0 <= i < |segs| ==> NoDot(segs[i])
    ensures Split(Join(segs)) == segs
    decreases |segs|
  {
    if |segs| == 1 {
      assert FirstDot(segs[0]) == |segs[0]|;
    } else {
      assert Join(segs) == segs[0] + "." + Join(segs[1..]);
      SplitAfterDot(segs[0], Join(segs[1..]));
      SplitJoin(segs[1..]);
      assert segs == [segs[0]] + segs[1..];
    }
  }

  /** Splitting at the first dot of a dot-free head gives the head, then the
      pieces of the rest. */
  lemma SplitAfterDot(a: string, t: string)
    requires NoDot(a)
    ensures Split(a + "." + t) == [a] + Split(t)
  {
    var s := a + "." + t;
    assert FirstDot(s) == |a| by {
      FirstDotAfter(a, "." + t);
      assert s == a + ("." + t);
    }
    assert s[..|a|] == a;
    assert s[|a| + 1..] == t;
  }

  /** The first dot of `a + b` for a dot-free `a` that `b` starts with a dot. */
  lemma {:induction false} FirstDotAfter(a: string, b: string)
    requires NoDot(a) && |b| > 0 && b[0] == '.'
    ensures FirstDot(a + b) == |a|
    decreases |a|
  {
    if a != [] {
      assert (a + b)[1..] == a[1..] + b;
      FirstDotAfter(a[1..], b);
    }
  }

  /** Distinct dot-free instance paths render differently: the rendered path
      reads back to the segments. */
  lemma RenderedPathReadsBack(instancePath: seq<string>)
    requires forall i :: 0 <= i < |instancePath| ==> NoDot(instancePath[i])
    ensures ParsePath(RenderPath(instancePath)) == Some(instancePath)
  {
    if instancePath != [] {
      SplitJoin(instancePath);
    }
  }

  // ---------------------------------------------------------------------------
  // Validate
  // ---------------------------------------------------------------------------

  /** What JSON Typedef answers: a checker failure, or the errors found (at
      most one is asked for). */
  datatype Verdict = CheckerFailed(msg: string) | Found(errors: seq<ValidateError>)

  /** Validate: looks the definition up by name, marshals the value, checks
      it, and reports the first error found. `marshal` and `check` stand for
      JSON marshalling and the JSON Typedef validator with all definitions
      in scope. */
  function Validate<S, V, J>(definitions: map<string, S>, name: string, v: V,
                             marshal: V -> Result<J, string>, check: (S, map<string, S>, J) -> Verdict)
    : (r: Option<string>)
    ensures name !in definitions ==> r == Some("cannot find schema \"" + name + "\"")
    ensures name in definitions && marshal(v).Err? ==> r == Some("marshaling value to JSON: " + marshal(v).error)
    ensures r == None <==>
      name in definitions && marshal(v).Ok? && check(definitions[name], definitions, marshal(v).value) == Found([])
    ensures name in definitions && marshal(v).Ok? ==>
      match check(definitions[name], definitions, marshal(v).value)
      case CheckerFailed(msg) => r == Some("cannot validate \"" + name + "\": " + msg)
      case Found(errors) => errors != [] ==> r == Some(ErrorText(errors[0]))
  {
    if name !in definitions then Some("cannot find schema \"" + name + "\"")
    else
      match marshal(v)
      case Err(msg) => Some("marshaling value to JSON: " + msg)
      case Ok(m) =>
        match check(definitions[name], definitions, m)
        case CheckerFailed(msg) => Some("cannot validate \"" + name + "\": " + msg)
        case Found(errors) => if |errors| == 0 then None else Some(ErrorText(errors[0]))
  }

  /** Reading a Validate message back: it starts with "error at " exactly
      when the value broke the schema, and then the rendered location that
      follows reads back to the instance path of the first error. */
  lemma ValidateLocatesFirstError<S, V, J>(definitions: map<string, S>, name: string, v: V,
                                           marshal: V -> Result<J, string>, check: (S, map<string, S>, J) -> Verdict)
    ensures var r := Validate(definitions, name, v, marshal, check);
      r.Some? ==>
        (|r.value| >= 9 && r.value[..9] == "error at " <==>
           name in definitions && marshal(v).Ok? && check(definitions[name], definitions, marshal(v).value).Found?)
    ensures var r := Validate(definitions, name, v, marshal, check);
      name in definitions && marshal(v).Ok? ==>
      match check(definitions[name], definitions, marshal(v).value)
      case CheckerFailed(_) => true
      case Found(errors) =>
        errors != [] && (forall i :: 0 <= i < |errors[0].instancePath| ==> NoDot(errors[0].instancePath[i])) ==>
          var p := RenderPath(errors[0].instancePath);
          r.Some? && |r.value| >= 9 + |p| && ParsePath(r.value[9..9 + |p|]) == Some(errors[0].instancePath)
  {
    var r := Validate(definitions, name, v, marshal, check);
    if name !in definitions {
      assert r.value[..9] == "cannot fi";
    } else if marshal(v).Err? {
      assert r.value[..9] == "marshalin";
    } else {
      match check(definitions[name], definitions, marshal(v).value)
      case CheckerFailed(msg) =>
        assert r.value[..9] == "cannot va";
      case Found(errors) =>
        if errors != [] && (forall i :: 0 <= i < |errors[0].instancePath| ==> NoDot(errors[0].instancePath[i])) {
          RenderedPathReadsBack(errors[0].instancePath);
        }
    }
  }

  /** Two messages worked through: an error at the root of the value and one
      inside it. */
  lemma ErrorTextExamples()
    ensures ErrorText(ValidateError([], ["properties", "type"])) == "error at $ (properties.type)"
    ensures ErrorText(ValidateError(["data", "0"], ["ref"])) == "error at $.data.0 (ref)"
  {
  }
}
