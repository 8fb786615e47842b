/**
 * The preset registry: the name -> preset table, the field-by-field validator
 * that answers (is_valid, error_message), registration of custom presets and
 * the name -> description listing.
 */
module Presets {
  import opened Outcomes

  /** A value stored in a preset dictionary: a Python int or float, a string, or a tuple or list. */
  datatype Value = Num(x: real) | Text(s: string) | Items(xs: seq<Value>)

  /** A preset is a Python dictionary from field names to values. */
  type Preset = map<string, Value>

  /** The fields the validator demands, in the order it checks them. */
  const RequiredFields: seq<string> := ["freqs", "tone_duration", "attack", "decay", "volume", "max_db"]

  /** The fields that must hold non-negative numbers, in the order they are checked. */
  const NumericFields: seq<string> := ["tone_duration", "attack", "decay", "volume", "max_db"]

  predicate IsNonNegativeNumber(v: Value) {
    v.Num? && v.x >= 0.0
  }

  predicate IsPositiveNumber(v: Value) {
    v.Num? && v.x > 0.0
  }

  /** Index of the first field of `fields` that `p` lacks, if any. */
  function FirstMissing(p: Preset, fields: seq<string>): (r: Option<nat>)
    ensures r.None? <==> forall i :: 0 <= i < |fields| ==> fields[i] in p
    ensures r.Some? ==> r.value < |fields| && fields[r.value] !in p
    ensures r.Some? ==> forall i :: 0 <= i < r.value ==> fields[i] in p
  {
    if fields == [] then None
    else if fields[0] !in p then Some(0)
    else match FirstMissing(p, fields[1..])
      case None => None
      case Some(i) => Some(i + 1)
  }

  /** Index of the first field of `fields` whose value is not a non-negative number, if any. */
  function FirstNotNonNegative(p: Preset, fields: seq<string>): (r: Option<nat>)
    requires forall i :: 0 <= i < |fields| ==> fields[i] in p
    ensures r.None? <==> forall i :: 0 <= i < |fields| ==> IsNonNegativeNumber(p[fields[i]])
    ensures r.Some? ==> r.value < |fields| && !IsNonNegativeNumber(p[fields[r.value]])
    ensures r.Some? ==> forall i :: 0 <= i < r.value ==> IsNonNegativeNumber(p[fields[i]])
  {
    if fields == [] then None
    else if !IsNonNegativeNumber(p[fields[0]]) then Some(0)
    else match FirstNotNonNegative(p, fields[1..])
      case None => None
      case Some(i) => Some(i + 1)
  }

  /**
   * validate_siren_preset: early-return checks, in the source's order.
   * The answer is (true, None) or (false, Some(message)).
   */
  function Validate(p: Preset): (r: (bool, Option<string>))
    ensures r.0 <==> r.1.None?
  {
    match FirstMissing(p, RequiredFields)
    case Some(i) => (false, Some("Missing required field: " + RequiredFields[i]))
    case None =>
      assert RequiredFields[0] in p && RequiredFields[4] in p;
      assert forall i :: 0 <= i < |NumericFields| ==> NumericFields[i] == RequiredFields[i + 1];
      var freqs := p["freqs"];
      if !freqs.Items? || |freqs.xs| != 2 then
        (false, Some("freqs must be a tuple or list of 2 frequencies"))
      else if !(IsPositiveNumber(freqs.xs[0]) && IsPositiveNumber(freqs.xs[1])) then
        (false, Some("Frequencies must be positive numbers"))
      else match FirstNotNonNegative(p, NumericFields)
        case Some(i) => (false, Some(NumericFields[i] + " must be a non-negative number"))
        case None =>
          assert IsNonNegativeNumber(p[NumericFields[3]]);
          if p["volume"].x > 1.0 then (false, Some("volume must be between 0 and 1"))
          else (true, None)
  }

  /** What an acceptable preset is, stated field by field without an order of checks. */
  ghost predicate WellFormed(p: Preset) {
    && "freqs" in p && "tone_duration" in p && "attack" in p
    && "decay" in p && "volume" in p && "max_db" in p
    && p["freqs"].Items? && |p["freqs"].xs| == 2
    && IsPositiveNumber(p["freqs"].xs[0]) && IsPositiveNumber(p["freqs"].xs[1])
    && IsNonNegativeNumber(p["tone_duration"]) && IsNonNegativeNumber(p["attack"])
    && IsNonNegativeNumber(p["decay"]) && IsNonNegativeNumber(p["volume"])
    && IsNonNegativeNumber(p["max_db"])
    && p["volume"].x <= 1.0
  }

  /** The validator accepts exactly the well-formed presets. */
  lemma ValidateAcceptsWellFormed(p: Preset)
    ensures Validate(p) == (true, None) <==> WellFormed(p)
  {
    if WellFormed(p) {
      assert FirstMissing(p, RequiredFields).None?;
      assert FirstNotNonNegative(p, NumericFields).None?;
    }
    if Validate(p).0 {
      assert FirstMissing(p, RequiredFields).None?;
      assert forall i :: 0 <= i < |RequiredFields| ==> RequiredFields[i] in p;
      assert forall i :: 0 <= i < |NumericFields| ==> NumericFields[i] == RequiredFields[i + 1];
      assert FirstNotNonNegative(p, NumericFields).None?;
      assert forall i :: 0 <= i < |NumericFields| ==> IsNonNegativeNumber(p[NumericFields[i]]);
      assert IsNonNegativeNumber(p[NumericFields[0]]) && IsNonNegativeNumber(p[NumericFields[1]]);
      assert IsNonNegativeNumber(p[NumericFields[2]]) && IsNonNegativeNumber(p[NumericFields[3]]);
      assert IsNonNegativeNumber(p[NumericFields[4]]);
      assert p["freqs"].Items? && |p["freqs"].xs| == 2;
      assert IsPositiveNumber(p["freqs"].xs[0]) && IsPositiveNumber(p["freqs"].xs[1]);
      assert p["volume"].x <= 1.0;
    }
  }

  /** A preset lacking a required field is rejected with the first missing field, in the order of RequiredFields. */
  lemma MissingFieldReported(p: Preset, i: nat)
    requires i < |RequiredFields| && RequiredFields[i] !in p
    requires forall j :: 0 <= j < i ==> RequiredFields[j] in p
    ensures Validate(p) == (false, Some("Missing required field: " + RequiredFields[i]))
  {
  }

  /** Every accepted preset has a volume in [0, 1]. */
  lemma AcceptedVolumeInUnitRange(p: Preset)
    requires Validate(p).0
    ensures "volume" in p && p["volume"].Num? && 0.0 <= p["volume"].x <= 1.0
  {
    ValidateAcceptsWellFormed(p);
    assert NumericFields[3] == "volume";
  }

  /** The two frequencies of a well-formed preset. */
  function Freqs(p: Preset): (f: (real, real))
    requires WellFormed(p)
    ensures 0.0 < f.0 && 0.0 < f.1
  {
    assert IsPositiveNumber(p["freqs"].xs[0]) && IsPositiveNumber(p["freqs"].xs[1]);
    (p["freqs"].xs[0].x, p["freqs"].xs[1].x)
  }

  /** A numeric field of a well-formed preset. */
  function Number(p: Preset, field: string): (v: real)
    requires WellFormed(p) && field in NumericFields
    ensures 0.0 <= v
    ensures field == "volume" ==> v <= 1.0
  {
    var i :| 0 <= i < |NumericFields| && NumericFields[i] == field;
    assert IsNonNegativeNumber(p[NumericFields[i]]);
    p[field].x
  }

  /** The preset a registration stores: a copy with a default description when the caller gave none. */
  function Described(name: string, preset: Preset): (r: Preset)
    ensures "description" in r
    ensures r.Keys == preset.Keys + {"description"}
    ensures forall f :: f in preset ==> r[f] == preset[f]
    ensures "description" !in preset ==> r["description"] == Text("Custom " + name + " siren")
  {
    if "description" in preset then preset
    else preset["description" := Text("Custom " + name + " siren")]
  }

  /** register_custom_siren on a given table: the new table, or the ValueError it raises. */
  function Registration(presets: map<string, Preset>, name: string, preset: Preset): (r: Result<map<string, Preset>, Fault>)
    ensures r.Failure? <==> !Validate(preset).0
    ensures r.Failure? ==> r.error == InvalidPreset("Invalid siren preset: " + Validate(preset).1.value)
    ensures r.Success? ==> r.value.Keys == presets.Keys + {name}
    ensures r.Success? ==> r.value[name] == Described(name, preset)
    ensures r.Success? ==> forall n :: n in presets && n != name ==> r.value[n] == presets[n]
  {
    var (ok, error) := Validate(preset);
    if !ok then Failure(InvalidPreset("Invalid siren preset: " + error.value))
    else Success(presets[name := Described(name, preset)])
  }

  /** Adding a description never changes what the validator says. */
  lemma DescribedKeepsValidity(name: string, preset: Preset)
    ensures Validate(Described(name, preset)) == Validate(preset)
  {
    var d := Described(name, preset);
    assert forall i :: 0 <= i < |RequiredFields| ==> RequiredFields[i] != "description";
    assert forall i :: 0 <= i < |RequiredFields| ==> (RequiredFields[i] in d <==> RequiredFields[i] in preset);
    assert FirstMissing(d, RequiredFields) == FirstMissing(preset, RequiredFields) by {
      FirstMissingAgree(d, preset, RequiredFields);
    }
    if FirstMissing(preset, RequiredFields).None? {
      assert RequiredFields[0] in preset && RequiredFields[4] in preset;
      assert forall i :: 0 <= i < |NumericFields| ==> NumericFields[i] in d && d[NumericFields[i]] == preset[NumericFields[i]] by {
        assert forall i :: 0 <= i < |NumericFields| ==> NumericFields[i] == RequiredFields[i + 1];
      }
      FirstNotNonNegativeAgree(d, preset, NumericFields);
      assert d["freqs"] == preset["freqs"] && d["volume"] == preset["volume"];
    }
  }

  lemma {:induction false} FirstMissingAgree(p: Preset, q: Preset, fields: seq<string>)
    requires forall i :: 0 <= i < |fields| ==> (fields[i] in p <==> fields[i] in q)
    ensures FirstMissing(p, fields) == FirstMissing(q, fields)
  {
    if fields != [] {
      FirstMissingAgree(p, q, fields[1..]);
    }
  }

  lemma {:induction false} FirstNotNonNegativeAgree(p: Preset, q: Preset, fields: seq<string>)
    requires forall i :: 0 <= i < |fields| ==> fields[i] in p && fields[i] in q && p[fields[i]] == q[fields[i]]
    ensures FirstNotNonNegative(p, fields) == FirstNotNonNegative(q, fields)
  {
    if fields != [] {
      FirstNotNonNegativeAgree(p, q, fields[1..]);
    }
  }

  /** get_available_sirens on a given table: each name with its description, or "<name> siren" when it has none. */
  function Descriptions(presets: map<string, Preset>): (d: map<string, Value>)
    ensures d.Keys == presets.Keys
  {
    map name | name in presets ::
      if "description" in presets[name] then presets[name]["description"] else Text(name + " siren")
  }

  /**
   * After a successful registration the listing shows the new name with the caller's
   * description or "Custom <name> siren", and every other entry as before.
   */
  lemma ListingAfterRegistration(presets: map<string, Preset>, name: string, preset: Preset)
    requires Registration(presets, name, preset).Success?
    ensures var d := Descriptions(Registration(presets, name, preset).value);
      && d.Keys == presets.Keys + {name}
      && d[name] == (if "description" in preset then preset["description"] else Text("Custom " + name + " siren"))
      && forall n :: n in presets && n != name ==> d[n] == Descriptions(presets)[n]
  {
  }

  /** The registry a fresh process starts with. */
  function BuiltinPresets(): map<string, Preset> {
    map[
      "police" := map[
        "freqs" := Items([Num(435.0), Num(580.0)]),
        "tone_duration" := Num(0.4), "attack" := Num(0.05), "decay" := Num(0.05),
        "volume" := Num(0.9), "max_db" := Num(110.0),
        "description" := Text("French Police two-tone siren")],
      "firefighter" := map[
        "freqs" := Items([Num(370.0), Num(470.0)]),
        "tone_duration" := Num(0.7), "attack" := Num(0.1), "decay" := Num(0.1),
        "volume" := Num(1.0), "max_db" := Num(112.0),
        "description" := Text("French Firefighter (Sapeurs-Pompiers) two-tone siren")],
      "samu" := map[
        "freqs" := Items([Num(435.0), Num(651.0)]),
        "tone_duration" := Num(0.3), "attack" := Num(0.04), "decay" := Num(0.04),
        "volume" := Num(0.85), "max_db" := Num(108.0),
        "description" := Text("French SAMU/Ambulance two-tone siren")],
      "hi_lo" := map[
        "freqs" := Items([Num(440.0), Num(660.0)]),
        "tone_duration" := Num(0.5), "attack" := Num(0.05), "decay" := Num(0.05),
        "volume" := Num(0.9), "max_db" := Num(110.0),
        "description" := Text("European-style Hi-Lo sweep siren")]
    ]
  }

  /** The registry invariant: "police" is always present and every entry is acceptable and described. */
  ghost predicate GoodTable(presets: map<string, Preset>) {
    && "police" in presets
    && forall n :: n in presets ==> WellFormed(presets[n]) && "description" in presets[n]
  }

  /** The built-in table satisfies the registry invariant. */
  lemma BuiltinsGood()
    ensures GoodTable(BuiltinPresets())
  {
    var t := BuiltinPresets();
    forall n | n in t ensures WellFormed(t[n]) {
      assert forall i :: 0 <= i < |NumericFields| ==> NumericFields[i] in t[n];
      assert forall i :: 0 <= i < |RequiredFields| ==> RequiredFields[i] in t[n];
    }
  }

  /** A successful registration keeps the registry invariant. */
  lemma RegistrationKeepsGood(presets: map<string, Preset>, name: string, preset: Preset)
    requires GoodTable(presets)
    requires Registration(presets, name, preset).Success?
    ensures GoodTable(Registration(presets, name, preset).value)
  {
    DescribedKeepsValidity(name, preset);
    ValidateAcceptsWellFormed(preset);
    ValidateAcceptsWellFormed(Described(name, preset));
  }

  /** The module-level PRESETS dictionary, as an object whose one field the registration updates in place. */
  class Registry {
    var presets: map<string, Preset>

    ghost predicate Valid()
      reads this
    {
      GoodTable(presets)
    }

    constructor ()
      ensures Valid()
      ensures presets == BuiltinPresets()
    {
      presets := BuiltinPresets();
      BuiltinsGood();
    }

    /** register_custom_siren: raise on an invalid preset, else insert or overwrite `name`. */
    method Register(name: string, preset: Preset) returns (r: Result<(), Fault>)
      requires Valid()
      modifies this
      ensures Valid()
      ensures r.Failure? <==> !Validate(preset).0
      ensures r.Failure? ==> r.error == InvalidPreset("Invalid siren preset: " + Validate(preset).1.value)
      ensures r.Failure? ==> presets == old(presets)
      ensures r.Success? ==> presets == Registration(old(presets), name, preset).value
    {
      var (ok, error) := Validate(preset);
      if !ok {
        return Failure(InvalidPreset("Invalid siren preset: " + error.value));
      }
      var stored := Described(name, preset);
      RegistrationKeepsGood(presets, name, preset);
      presets := presets[name := stored];
      r := Success(());
    }

    /** get_available_sirens. */
    function AvailableSirens(): (d: map<string, Value>)
      reads this
      requires Valid()
      ensures d.Keys == presets.Keys
      ensures forall n :: n in d ==> d[n] == presets[n]["description"]
    {
      Descriptions(presets)
    }
  }
}
