/** Reading the lab specification (`get_lab_spec`) and taking from it the two
    payloads handed to the action runner (`get_installer_steps_spec`,
    `get_build_steps_spec`), src/VMManager/VMManager.py:83-87, 126-133. */
module LabSpec {
  import opened Wrappers
  import opened Json

  /** What the spec file path holds once the repository is in place: nothing;
      something that `open(...).read()` or `json.loads` rejects (with the text
      of that exception); or a decoded document. */
  datatype SpecFile = Missing | Unparseable(detail: string) | Parsed(doc: Json)

  const SPEC_NOT_FOUND := "Lab spec file not found"
  const SPEC_JSON_INVALID := "Lab spec JSON invalid: "

  /** `get_lab_spec`: the decoded document, or the message of the
      `LabSpecInvalid` exception it raises. The document's shape is not checked. */
  function GetLabSpec(file: SpecFile): (r: Result<Json, string>)
    ensures r.Success? <==> file.Parsed?
    ensures r.Success? ==> r.value == file.doc
    ensures file.Missing? ==> r == Failure(SPEC_NOT_FOUND)
    ensures file.Unparseable? ==> r == Failure(SPEC_JSON_INVALID + file.detail)
  {
    match file
    case Missing => Failure(SPEC_NOT_FOUND)
    case Unparseable(detail) => Failure(SPEC_JSON_INVALID + detail)
    case Parsed(doc) => Success(doc)
  }

  /** Where the two payloads live in a lab specification. */
  const PLATFORM_PATH := ["lab", "build_requirements", "platform"]
  const INSTALLER_PATH := ["lab", "build_requirements", "platform", "installer"]
  const BUILD_STEPS_PATH := ["lab", "build_requirements", "platform", "build_steps"]

  /** Four subscripts in a row, as the two projections write them. */
  lemma LookupFour(j: Json, a: string, b: string, c: string, d: string)
    ensures Lookup(j, [a, b, c, d])
         == (var x :- Member(j, a); var y :- Member(x, b); var z :- Member(y, c); Member(z, d))
  {
    assert [a, b, c, d][1..] == [b, c, d];
    match Member(j, a)
    case None =>
    case Some(x) =>
      assert Lookup(j, [a, b, c, d]) == Lookup(x, [b, c, d]);
      assert [b, c, d][1..] == [c, d];
      match Member(x, b)
      case None =>
      case Some(y) =>
        assert Lookup(x, [b, c, d]) == Lookup(y, [c, d]);
        assert [c, d][1..] == [d];
        match Member(y, c)
        case None =>
        case Some(z) =>
          assert Lookup(y, [c, d]) == Lookup(z, [d]);
          assert [d][1..] == [];
          assert Lookup(z, [d]) == Member(z, d);
  }

  /** `get_installer_steps_spec`: `{"installer": spec.lab.build_requirements.platform.installer}`,
      or `None` where one of the four subscripts raises. */
  function GetInstallerStepsSpec(labSpec: Json): (r: Option<Json>)
    ensures r.Some? <==> Lookup(labSpec, INSTALLER_PATH).Some?
    ensures r.Some? ==> r.value == JObject(map["installer" := Lookup(labSpec, INSTALLER_PATH).value])
  {
    LookupFour(labSpec, "lab", "build_requirements", "platform", "installer");
    var lab :- Member(labSpec, "lab");
    var requirements :- Member(lab, "build_requirements");
    var platform :- Member(requirements, "platform");
    var installer :- Member(platform, "installer");
    Some(JObject(map["installer" := installer]))
  }

  /** `get_build_steps_spec`: `{"build_steps": spec.lab.build_requirements.platform.build_steps}`,
      or `None` where one of the four subscripts raises. */
  function GetBuildStepsSpec(labSpec: Json): (r: Option<Json>)
    ensures r.Some? <==> Lookup(labSpec, BUILD_STEPS_PATH).Some?
    ensures r.Some? ==> r.value == JObject(map["build_steps" := Lookup(labSpec, BUILD_STEPS_PATH).value])
  {
    LookupFour(labSpec, "lab", "build_requirements", "platform", "build_steps");
    var lab :- Member(labSpec, "lab");
    var requirements :- Member(lab, "build_requirements");
    var platform :- Member(requirements, "platform");
    var steps :- Member(platform, "build_steps");
    Some(JObject(map["build_steps" := steps]))
  }

  /** A specification built as `{"lab": {"build_requirements": {"platform": p}}}`
      yields exactly the two members of `p` as payloads, and a missing member
      makes its projection raise. */
  lemma ProjectNested(p: map<string, Json>)
    ensures var doc := Nest(PLATFORM_PATH, JObject(p));
      && GetInstallerStepsSpec(doc) == (if "installer" in p then Some(JObject(map["installer" := p["installer"]])) else None)
      && GetBuildStepsSpec(doc) == (if "build_steps" in p then Some(JObject(map["build_steps" := p["build_steps"]])) else None)
  {
    var doc := Nest(PLATFORM_PATH, JObject(p));
    LookupNest(PLATFORM_PATH, JObject(p));
    assert INSTALLER_PATH == PLATFORM_PATH + ["installer"];
    assert BUILD_STEPS_PATH == PLATFORM_PATH + ["build_steps"];
    LookupAppend(doc, PLATFORM_PATH, ["installer"]);
    LookupAppend(doc, PLATFORM_PATH, ["build_steps"]);
  }
}
