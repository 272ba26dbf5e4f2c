/** The portable JSON Schema subset: checking a definition, and checking a value
    against a definition. */
module Schema {
  import opened Json
  import opened Numerals

  predicate SupportedType(name: string)
  {
    name in {"object", "array", "string", "number", "integer", "boolean", "null"}
  }

  // ---- definitions ----

  /** The declarative meaning of an acceptable definition. */
  predicate WellFormed(schema: Json)
    decreases schema
  {
    && schema.Obj?
    && (var kind := Find(schema, "type");
        kind.Some? ==> kind.value.Str? && SupportedType(kind.value.text))
    && (var properties := Find(schema, "properties");
        properties.Some? ==>
          properties.value.Obj?
          && forall k | k in properties.value.members :: WellFormed(properties.value.members[k]))
    && (var required := Find(schema, "required");
        required.Some? ==>
          required.value.Arr?
          && forall i | 0 <= i < |required.value.items| ::
               required.value.items[i].Str? && required.value.items[i].text != [])
    && (var items := Find(schema, "items");
        items.Some? ==> WellFormed(items.value))
    && (var additional := Find(schema, "additionalProperties");
        additional.Some? ==> additional.value.Bool? || WellFormed(additional.value))
    && (var allowed := Find(schema, "enum");
        allowed.Some? ==> allowed.value.Arr?)
  }

  /** The first complaint about a definition, or none. */
  function CheckDefinition(schema: Json, location: string): (error: Option<string>)
    decreases schema, 0
  {
    if !schema.Obj? then Some(location + " must be a JSON object")
    else
      var kind := Find(schema, "type");
      if kind.Some? && !kind.value.Str? then Some(location + ".type must be a string")
      else if kind.Some? && !SupportedType(kind.value.text) then Some(location + ".type is not supported")
      else
        var properties := Find(schema, "properties");
        if properties.Some? && !properties.value.Obj? then Some(location + ".properties must be an object")
        else
          var nested := if properties.None? then None
                        else CheckProperties(properties.value, SortedKeys(properties.value.members.Keys), location);
          if nested.Some? then nested
          else
            var required := Find(schema, "required");
            if required.Some? && !required.value.Arr? then Some(location + ".required must be an array")
            else if required.Some? && !RequiredNames(required.value.items) then
              Some(location + ".required entries must be non-empty strings")
            else
              var items := Find(schema, "items");
              var itemsError := if items.None? then None else CheckDefinition(items.value, location + ".items");
              if itemsError.Some? then itemsError
              else
                var additional := Find(schema, "additionalProperties");
                if additional.Some? && !additional.value.Bool? && !additional.value.Obj? then
                  Some(location + ".additionalProperties must be a boolean or object")
                else
                  var additionalError :=
                    if additional.Some? && additional.value.Obj?
                    then CheckDefinition(additional.value, location + ".additionalProperties")
                    else None;
                  if additionalError.Some? then additionalError
                  else
                    var allowed := Find(schema, "enum");
                    if allowed.Some? && !allowed.value.Arr? then Some(location + ".enum must be an array")
                    else None
  }

  function CheckProperties(properties: Json, keys: seq<string>, location: string): (error: Option<string>)
    requires properties.Obj? && forall k | k in keys :: k in properties.members.Keys
    decreases properties, |keys| + 1
  {
    if keys == [] then None
    else
      var first := CheckDefinition(properties.members[keys[0]], location + ".properties." + keys[0]);
      if first.Some? then first else CheckProperties(properties, keys[1..], location)
  }

  function RequiredNames(names: seq<Json>): (ok: bool)
    ensures ok <==> forall i | 0 <= i < |names| :: names[i].Str? && names[i].text != []
  {
    if names == [] then true
    else
      assert forall i | 0 <= i < |names| :: i == 0 || names[i] == names[1..][i - 1];
      names[0].Str? && names[0].text != [] && RequiredNames(names[1..])
  }

  /** A definition is accepted exactly when it is well formed at every depth. */
  lemma {:induction false} DefinitionAccepted(schema: Json, location: string)
    ensures CheckDefinition(schema, location).None? <==> WellFormed(schema)
    decreases schema, 0
  {
    hide SupportedType, Ascending, CheckProperties;
    if schema.Obj? {
      var properties := Find(schema, "properties");
      if properties.Some? && properties.value.Obj? {
        var keys := SortedKeys(properties.value.members.Keys);
        PropertiesAccepted(properties.value, keys, location);
        assert forall k :: k in keys <==> k in properties.value.members.Keys;
      }
      var items := Find(schema, "items");
      if items.Some? { DefinitionAccepted(items.value, location + ".items"); }
      var additional := Find(schema, "additionalProperties");
      if additional.Some? { DefinitionAccepted(additional.value, location + ".additionalProperties"); }
    }
  }

  lemma {:induction false} PropertiesAccepted(properties: Json, keys: seq<string>, location: string)
    requires properties.Obj? && forall k | k in keys :: k in properties.members.Keys
    ensures CheckProperties(properties, keys, location).None?
            <==> forall k | k in keys :: WellFormed(properties.members[k])
    decreases properties, |keys| + 1
  {
    if keys != [] {
      DefinitionAccepted(properties.members[keys[0]], location + ".properties." + keys[0]);
      PropertiesAccepted(properties, keys[1..], location);
      assert forall k | k in keys :: k == keys[0] || k in keys[1..];
    }
  }

  // ---- values ----

  function HasType(value: Json, kind: string): (ok: bool)
  {
    if kind == "object" then value.Obj?
    else if kind == "array" then value.Arr?
    else if kind == "string" then value.Str?
    else if kind == "number" then value.Int? || value.Float?
    else if kind == "integer" then value.Int?
    else if kind == "boolean" then value.Bool?
    else if kind == "null" then value.Null?
    else false
  }

  /** The type names that describe a value. */
  function TypeNames(value: Json): (names: set<string>)
  {
    match value
    case Null => {"null"}
    case Bool(_) => {"boolean"}
    case Int(_) => {"integer", "number"}
    case Float(_) => {"number"}
    case Str(_) => {"string"}
    case Arr(_) => {"array"}
    case Obj(_) => {"object"}
  }

  lemma {:induction false} HasTypeExactly(value: Json, kind: string)
    ensures HasType(value, kind) <==> kind in TypeNames(value)
  {
    var names := ["object", "array", "string", "number", "integer", "boolean", "null"];
    assert |"object"| == |"string"| == |"number"| == 6 && |"array"| == 5 && |"null"| == 4;
    assert |"integer"| == |"boolean"| == 7;
    assert "object"[0] == 'o' && "string"[0] == 's' && "number"[0] == 'n' && "integer"[0] == 'i' && "boolean"[0] == 'b';
  }

  /** The declarative conformance relation, at every depth of the value. */
  ghost predicate Conforms(value: Json, schema: Json)
    decreases value, 1
  {
    && (var kind := Find(schema, "type");
        kind.Some? ==> kind.value.Str? && kind.value.text in TypeNames(value))
    && (var allowed := Find(schema, "enum");
        allowed.Some? ==>
          allowed.value.Arr? && exists i | 0 <= i < |allowed.value.items| :: Equal(allowed.value.items[i], value))
    && (value.Obj? ==> MembersConform(value, schema))
    && (value.Arr? ==>
          var items := Find(schema, "items");
          items.Some? ==> forall i | 0 <= i < |value.items| :: Conforms(value.items[i], items.value))
  }

  ghost predicate MembersConform(value: Json, schema: Json)
    requires value.Obj?
    decreases value, 0
  {
    && (var required := Find(schema, "required");
        required.Some? ==>
          required.value.Arr?
          && forall i | 0 <= i < |required.value.items| ::
               required.value.items[i].Str? && required.value.items[i].text in value.members)
    && (var properties := Find(schema, "properties");
        properties.Some? ==>
          properties.value.Obj?
          && forall k | k in value.members && k in properties.value.members ::
               Conforms(value.members[k], properties.value.members[k]))
    && (var additional := Find(schema, "additionalProperties");
        additional.Some? ==>
          forall k | k in value.members
                     && !(Find(schema, "properties").Some? && Find(Find(schema, "properties").value, k).Some?) ::
            && additional.value != Bool(false)
            && (additional.value.Obj? ==> Conforms(value.members[k], additional.value)))
  }

  predicate Declared(schema: Json, key: string)
  {
    var properties := Find(schema, "properties");
    properties.Some? && Find(properties.value, key).Some?
  }

  /** A check ends in a message, empty when there is no complaint, or in the type error
      that reading a JSON value as something it is not raises. */
  datatype Verdict = Message(text: string) | TypeError

  const FINE := Message("")

  /** What iterating over any JSON value visits. */
  function Elements(value: Json): (elements: seq<Json>)
  {
    match value
    case Null => []
    case Arr(items) => items
    case Obj(members) =>
      var keys := SortedKeys(members.Keys);
      assert forall k | k in keys :: k in members.Keys;
      seq(|keys|, i requires 0 <= i < |keys| => members[keys[i]])
    case _ => [value]
  }

  function Validate(value: Json, schema: Json, path: string): (verdict: Verdict)
    decreases value, 2, 0
  {
    var kind := Find(schema, "type");
    if kind.Some? && !kind.value.Str? then TypeError
    else if kind.Some? && !HasType(value, kind.value.text) then Message(path + " must be " + kind.value.text)
    else
      var allowed := Find(schema, "enum");
      if allowed.Some? && !AnyEqual(Elements(allowed.value), value) then
        Message(path + " is not one of the allowed enum values")
      else if value.Obj? then ValidateMembers(value, schema, path)
      else if value.Arr? then
        var items := Find(schema, "items");
        if items.Some? then ValidateItems(value, 0, items.value, path) else FINE
      else FINE
  }

  function AnyEqual(candidates: seq<Json>, value: Json): (found: bool)
    ensures found <==> exists i | 0 <= i < |candidates| :: Equal(candidates[i], value)
  {
    if candidates == [] then false
    else
      assert forall i | 0 < i < |candidates| :: candidates[i] == candidates[1..][i - 1];
      Equal(candidates[0], value) || AnyEqual(candidates[1..], value)
  }

  function ValidateMembers(value: Json, schema: Json, path: string): (verdict: Verdict)
    requires value.Obj?
    decreases value, 1, 0
  {
    var required := Find(schema, "required");
    var missing := if required.Some? then ValidateRequired(value, Elements(required.value), path) else FINE;
    if missing != FINE then missing
    else
      var properties := Find(schema, "properties");
      var declared := if properties.None? then FINE
                      else if properties.value.Obj? then
                        ValidateDeclared(value, properties.value, SortedKeys(properties.value.members.Keys), path)
                      else if Elements(properties.value) == [] then FINE
                      else TypeError;
      if declared != FINE then declared
      else
        var additional := Find(schema, "additionalProperties");
        if additional.Some?
        then ValidateAdditional(value, schema, additional.value, SortedKeys(value.members.Keys), path)
        else FINE
  }

  function ValidateRequired(value: Json, names: seq<Json>, path: string): (verdict: Verdict)
    requires value.Obj?
  {
    if names == [] then FINE
    else if !names[0].Str? then TypeError
    else if names[0].text !in value.members then Message(path + "." + names[0].text + " is required")
    else ValidateRequired(value, names[1..], path)
  }

  function ValidateDeclared(value: Json, properties: Json, keys: seq<string>, path: string): (verdict: Verdict)
    requires value.Obj? && properties.Obj? && forall k | k in keys :: k in properties.members.Keys
    decreases value, 0, |keys|
  {
    if keys == [] then FINE
    else
      var first := if keys[0] in value.members
                   then Validate(value.members[keys[0]], properties.members[keys[0]], path + "." + keys[0])
                   else FINE;
      if first != FINE then first else ValidateDeclared(value, properties, keys[1..], path)
  }

  function ValidateAdditional(value: Json, schema: Json, additional: Json, keys: seq<string>, path: string)
    : (verdict: Verdict)
    requires value.Obj? && forall k | k in keys :: k in value.members.Keys
    decreases value, 0, |keys|
  {
    if keys == [] then FINE
    else
      var first :=
        if Declared(schema, keys[0]) then FINE
        else if additional == Bool(false) then Message(path + "." + keys[0] + " is not allowed")
        else if additional.Obj? then Validate(value.members[keys[0]], additional, path + "." + keys[0])
        else FINE;
      if first != FINE then first else ValidateAdditional(value, schema, additional, keys[1..], path)
  }

  function ValidateItems(value: Json, from: nat, items: Json, path: string): (verdict: Verdict)
    requires value.Arr? && from <= |value.items|
    decreases value, 0, |value.items| - from
  {
    if from == |value.items| then FINE
    else
      var first := Validate(value.items[from], items, path + "[" + Decimal(from) + "]");
      if first != FINE then first else ValidateItems(value, from + 1, items, path)
  }

  // ---- the two checks fit together ----

  /** What a value check relies on: the parts of a definition that it reads. */
  lemma {:induction false} WellFormedParts(schema: Json)
    requires WellFormed(schema)
    ensures Find(schema, "type").Some? ==> Find(schema, "type").value.Str?
    ensures Find(schema, "enum").Some? ==> Find(schema, "enum").value.Arr?
    ensures Find(schema, "items").Some? ==> WellFormed(Find(schema, "items").value)
  {
    hide SupportedType, Ascending;
  }

  /** Against an accepted definition the check never reads a value as something it is
      not, and it has no complaint exactly when the value conforms. */
  lemma {:induction false} ValidateDecides(value: Json, schema: Json, path: string)
    requires WellFormed(schema)
    ensures Validate(value, schema, path).Message?
    ensures Validate(value, schema, path) == FINE <==> Conforms(value, schema)
    decreases value, 2, 0
  {
    hide WellFormed, Equal, ValidateMembers, MembersConform, ValidateItems, Ascending, HasType, TypeNames;
    WellFormedParts(schema);
    var kind := Find(schema, "type");
    if kind.Some? { HasTypeExactly(value, kind.value.text); }
    if value.Obj? {
      MembersDecide(value, schema, path);
    } else if value.Arr? {
      var items := Find(schema, "items");
      if items.Some? { ItemsDecide(value, 0, items.value, path); }
    }
  }

  lemma {:induction false} MembersDecide(value: Json, schema: Json, path: string)
    requires WellFormed(schema) && value.Obj?
    ensures ValidateMembers(value, schema, path).Message?
    ensures ValidateMembers(value, schema, path) == FINE <==> MembersConform(value, schema)
    decreases value, 1, 0
  {
    hide Validate, Conforms, Ascending, ValidateRequired, ValidateDeclared, ValidateAdditional;
    var required := Find(schema, "required");
    if required.Some? { RequiredDecides(value, required.value.items, path); }
    var properties := Find(schema, "properties");
    if properties.Some? {
      var keys := SortedKeys(properties.value.members.Keys);
      DeclaredDecides(value, properties.value, keys, path);
      assert forall k :: k in keys <==> k in properties.value.members.Keys;
    }
    var additional := Find(schema, "additionalProperties");
    if additional.Some? {
      var keys := SortedKeys(value.members.Keys);
      AdditionalDecides(value, schema, additional.value, keys, path);
      assert forall k :: k in keys <==> k in value.members.Keys;
    }
  }

  lemma {:induction false} RequiredDecides(value: Json, names: seq<Json>, path: string)
    requires value.Obj? && forall i | 0 <= i < |names| :: names[i].Str?
    ensures ValidateRequired(value, names, path).Message?
    ensures ValidateRequired(value, names, path) == FINE
            <==> forall i | 0 <= i < |names| :: names[i].text in value.members
  {
    if names != [] {
      RequiredDecides(value, names[1..], path);
      assert forall i | 0 < i < |names| :: names[i] == names[1..][i - 1];
    }
  }

  lemma {:induction false} DeclaredDecides(value: Json, properties: Json, keys: seq<string>, path: string)
    requires value.Obj? && properties.Obj? && forall k | k in keys :: k in properties.members.Keys
    requires forall k | k in properties.members :: WellFormed(properties.members[k])
    ensures ValidateDeclared(value, properties, keys, path).Message?
    ensures ValidateDeclared(value, properties, keys, path) == FINE
            <==> forall k | k in value.members && k in keys :: Conforms(value.members[k], properties.members[k])
    decreases value, 0, |keys|
  {
    hide Validate, Conforms;
    if keys != [] {
      if keys[0] in value.members {
        ValidateDecides(value.members[keys[0]], properties.members[keys[0]], path + "." + keys[0]);
      }
      DeclaredDecides(value, properties, keys[1..], path);
      assert forall k | k in keys :: k == keys[0] || k in keys[1..];
    }
  }

  lemma {:induction false} AdditionalDecides(value: Json, schema: Json, additional: Json, keys: seq<string>,
                                             path: string)
    requires value.Obj? && forall k | k in keys :: k in value.members.Keys
    requires additional.Bool? || WellFormed(additional)
    ensures ValidateAdditional(value, schema, additional, keys, path).Message?
    ensures ValidateAdditional(value, schema, additional, keys, path) == FINE
            <==> forall k | k in keys && !Declared(schema, k) ::
                   && additional != Bool(false)
                   && (additional.Obj? ==> Conforms(value.members[k], additional))
    decreases value, 0, |keys|
  {
    hide Validate, Conforms, Declared;
    if keys != [] {
      if additional.Obj? {
        ValidateDecides(value.members[keys[0]], additional, path + "." + keys[0]);
      }
      AdditionalDecides(value, schema, additional, keys[1..], path);
      assert forall k | k in keys :: k == keys[0] || k in keys[1..];
    }
  }

  lemma {:induction false} ItemsDecide(value: Json, from: nat, items: Json, path: string)
    requires value.Arr? && from <= |value.items| && WellFormed(items)
    ensures ValidateItems(value, from, items, path).Message?
    ensures ValidateItems(value, from, items, path) == FINE
            <==> forall i | from <= i < |value.items| :: Conforms(value.items[i], items)
    decreases value, 0, |value.items| - from
  {
    hide Validate, Conforms;
    if from < |value.items| {
      ValidateDecides(value.items[from], items, path + "[" + Decimal(from) + "]");
      ItemsDecide(value, from + 1, items, path);
    }
  }

  // ---- what a complaint says ----

  predicate Requires(schema: Json, name: string)
  {
    match Find(schema, "required")
    case Some(Arr(names)) => exists i | 0 <= i < |names| :: names[i] == Str(name)
    case _ => false
  }

  /** The text names a place at or below the path and something that is wrong there. */
  ghost predicate Complains(value: Json, schema: Json, path: string, text: string)
    decreases value, 1
  {
    || (exists kind :: Find(schema, "type") == Some(Str(kind)) && kind !in TypeNames(value)
                       && text == path + " must be " + kind)
    || (Find(schema, "enum").Some? && text == path + " is not one of the allowed enum values"
        && forall i | 0 <= i < |Elements(Find(schema, "enum").value)| ::
             !Equal(Elements(Find(schema, "enum").value)[i], value))
    || (value.Obj? && ComplainsOfMember(value, schema, path, text))
    || (value.Arr? && Find(schema, "items").Some?
        && exists i | 0 <= i < |value.items| ::
             Complains(value.items[i], Find(schema, "items").value, path + "[" + Decimal(i) + "]", text))
  }

  ghost predicate ComplainsOfMember(value: Json, schema: Json, path: string, text: string)
    requires value.Obj?
    decreases value, 0
  {
    var properties, additional := Find(schema, "properties"), Find(schema, "additionalProperties");
    || (exists name :: Requires(schema, name) && name !in value.members && text == path + "." + name + " is required")
    || (properties.Some? && properties.value.Obj?
        && exists k | k in value.members && k in properties.value.members ::
             Complains(value.members[k], properties.value.members[k], path + "." + k, text))
    || (additional.Some?
        && exists k | k in value.members ::
             && !(properties.Some? && Find(properties.value, k).Some?)
             && ((additional.value == Bool(false) && text == path + "." + k + " is not allowed")
                 || (additional.value.Obj? && Complains(value.members[k], additional.value, path + "." + k, text))))
  }

  lemma {:induction false} OfItsType(value: Json, schema: Json, path: string, kind: string)
    requires Find(schema, "type") == Some(Str(kind)) && !HasType(value, kind)
    ensures Complains(value, schema, path, path + " must be " + kind)
  {
    HasTypeExactly(value, kind);
    hide HasType, TypeNames, ComplainsOfMember;
  }

  lemma {:induction false} OfItsEnum(value: Json, schema: Json, path: string)
    requires Find(schema, "enum").Some? && !AnyEqual(Elements(Find(schema, "enum").value), value)
    ensures Complains(value, schema, path, path + " is not one of the allowed enum values")
  {
    hide TypeNames, ComplainsOfMember, Elements, Equal;
  }

  lemma {:induction false} OfItsItem(value: Json, schema: Json, path: string, text: string, i: nat)
    requires value.Arr? && Find(schema, "items").Some? && i < |value.items|
    requires Complains(value.items[i], Find(schema, "items").value, path + "[" + Decimal(i) + "]", text)
    ensures Complains(value, schema, path, text)
  {
    hide TypeNames, ComplainsOfMember, Elements, Equal;
  }

  /** Against an accepted definition every complaint is true: what it names is wrong there. */
  lemma {:induction false} ComplaintIsTrue(value: Json, schema: Json, path: string)
    requires WellFormed(schema) && Validate(value, schema, path) != FINE
    ensures Validate(value, schema, path).Message?
    ensures Complains(value, schema, path, Validate(value, schema, path).text)
    decreases value, 2, 0
  {
    ValidateDecides(value, schema, path);
    WellFormedParts(schema);
    hide WellFormed, Equal, AnyEqual, ValidateMembers, ValidateItems, ComplainsOfMember, Conforms, HasType, TypeNames;
    hide Elements;
    var kind, allowed := Find(schema, "type"), Find(schema, "enum");
    if kind.Some? && !HasType(value, kind.value.text) {
      hide Complains;
      OfItsType(value, schema, path, kind.value.text);
    } else if allowed.Some? && !AnyEqual(Elements(allowed.value), value) {
      hide Complains;
      OfItsEnum(value, schema, path);
    } else if value.Obj? {
      MemberComplaintIsTrue(value, schema, path);
    } else {
      hide Complains;
      var i := ItemComplaintIsTrue(value, 0, Find(schema, "items").value, path);
      OfItsItem(value, schema, path, Validate(value, schema, path).text, i);
    }
  }

  lemma {:induction false} MemberComplaintIsTrue(value: Json, schema: Json, path: string)
    requires WellFormed(schema) && value.Obj? && ValidateMembers(value, schema, path) != FINE
    ensures ValidateMembers(value, schema, path).Message?
    ensures ComplainsOfMember(value, schema, path, ValidateMembers(value, schema, path).text)
    decreases value, 1, 0
  {
    MembersDecide(value, schema, path);
    hide Validate, Conforms, MembersConform, Ascending, Complains;
    hide ValidateRequired, ValidateDeclared, ValidateAdditional;
    var required, properties := Find(schema, "required"), Find(schema, "properties");
    if required.Some? && ValidateRequired(value, required.value.items, path) != FINE {
      var name := RequiredComplaintIsTrue(value, required.value.items, path);
      assert Requires(schema, name);
    } else if properties.Some?
              && ValidateDeclared(value, properties.value, SortedKeys(properties.value.members.Keys), path) != FINE {
      var k := DeclaredComplaintIsTrue(value, properties.value, SortedKeys(properties.value.members.Keys), path);
    } else {
      var additional := Find(schema, "additionalProperties").value;
      var k := AdditionalComplaintIsTrue(value, schema, additional, SortedKeys(value.members.Keys), path);
      assert k in value.members.Keys;
    }
  }

  lemma {:induction false} RequiredComplaintIsTrue(value: Json, names: seq<Json>, path: string) returns (name: string)
    requires value.Obj? && forall i | 0 <= i < |names| :: names[i].Str?
    requires ValidateRequired(value, names, path) != FINE
    ensures Str(name) in names && name !in value.members
    ensures ValidateRequired(value, names, path) == Message(path + "." + name + " is required")
  {
    if names[0].text !in value.members {
      name := names[0].text;
    } else {
      name := RequiredComplaintIsTrue(value, names[1..], path);
    }
  }

  lemma {:induction false} DeclaredComplaintIsTrue(value: Json, properties: Json, keys: seq<string>, path: string)
    returns (k: string)
    requires value.Obj? && properties.Obj? && forall k | k in keys :: k in properties.members.Keys
    requires forall k | k in properties.members :: WellFormed(properties.members[k])
    requires ValidateDeclared(value, properties, keys, path) != FINE
    ensures k in value.members && k in properties.members
    ensures ValidateDeclared(value, properties, keys, path).Message?
    ensures Complains(value.members[k], properties.members[k], path + "." + k,
                      ValidateDeclared(value, properties, keys, path).text)
    decreases value, 0, |keys|
  {
    hide Validate, Complains, WellFormed;
    var first := if keys[0] in value.members
                 then Validate(value.members[keys[0]], properties.members[keys[0]], path + "." + keys[0]) else FINE;
    if first != FINE {
      k := keys[0];
      ComplaintIsTrue(value.members[k], properties.members[k], path + "." + k);
    } else {
      k := DeclaredComplaintIsTrue(value, properties, keys[1..], path);
    }
  }

  lemma {:induction false} AdditionalComplaintIsTrue(value: Json, schema: Json, additional: Json, keys: seq<string>,
                                                     path: string)
    returns (k: string)
    requires value.Obj? && forall k | k in keys :: k in value.members.Keys
    requires additional.Bool? || WellFormed(additional)
    requires ValidateAdditional(value, schema, additional, keys, path) != FINE
    ensures k in keys && !Declared(schema, k) && ValidateAdditional(value, schema, additional, keys, path).Message?
    ensures var text := ValidateAdditional(value, schema, additional, keys, path).text;
            || (additional == Bool(false) && text == path + "." + k + " is not allowed")
            || (additional.Obj? && Complains(value.members[k], additional, path + "." + k, text))
    decreases value, 0, |keys|
  {
    hide Validate, Complains, WellFormed, Declared;
    var first :=
      if Declared(schema, keys[0]) then FINE
      else if additional == Bool(false) then Message(path + "." + keys[0] + " is not allowed")
      else if additional.Obj? then Validate(value.members[keys[0]], additional, path + "." + keys[0])
      else FINE;
    if first != FINE {
      k := keys[0];
      if additional.Obj? { ComplaintIsTrue(value.members[k], additional, path + "." + k); }
    } else {
      k := AdditionalComplaintIsTrue(value, schema, additional, keys[1..], path);
    }
  }

  lemma {:induction false} ItemComplaintIsTrue(value: Json, from: nat, items: Json, path: string) returns (i: nat)
    requires value.Arr? && from <= |value.items| && WellFormed(items) && ValidateItems(value, from, items, path) != FINE
    ensures i < |value.items| && ValidateItems(value, from, items, path).Message?
    ensures Complains(value.items[i], items, path + "[" + Decimal(i) + "]",
                      ValidateItems(value, from, items, path).text)
    decreases value, 0, |value.items| - from
  {
    hide Validate, Complains, WellFormed;
    if Validate(value.items[from], items, path + "[" + Decimal(from) + "]") != FINE {
      i := from;
      ComplaintIsTrue(value.items[i], items, path + "[" + Decimal(i) + "]");
    } else {
      i := ItemComplaintIsTrue(value, from + 1, items, path);
    }
  }

  /** So it begins with the path. */
  lemma {:induction false} ComplaintPlaced(value: Json, schema: Json, path: string, text: string)
    requires Complains(value, schema, path, text)
    ensures path <= text
    decreases value, 1
  {
    hide TypeNames, Elements, Equal, Requires;
    if value.Obj? && ComplainsOfMember(value, schema, path, text) {
      MemberComplaintPlaced(value, schema, path, text);
    } else if i :| value.Arr? && Find(schema, "items").Some? && 0 <= i < |value.items|
                   && Complains(value.items[i], Find(schema, "items").value, path + "[" + Decimal(i) + "]", text) {
      ComplaintPlaced(value.items[i], Find(schema, "items").value, path + "[" + Decimal(i) + "]", text);
    }
  }

  lemma {:induction false} MemberComplaintPlaced(value: Json, schema: Json, path: string, text: string)
    requires value.Obj? && ComplainsOfMember(value, schema, path, text)
    ensures path <= text
    decreases value, 0
  {
    hide Complains, Requires;
    var properties, additional := Find(schema, "properties"), Find(schema, "additionalProperties");
    if k :| properties.Some? && properties.value.Obj? && k in value.members && k in properties.value.members
            && Complains(value.members[k], properties.value.members[k], path + "." + k, text) {
      ComplaintPlaced(value.members[k], properties.value.members[k], path + "." + k, text);
    } else if k :| additional.Some? && k in value.members && additional.value.Obj?
                   && Complains(value.members[k], additional.value, path + "." + k, text) {
      ComplaintPlaced(value.members[k], additional.value, path + "." + k, text);
    }
  }

  // ---- what a type accepts ----

  /** A definition by type alone. */
  function OfType(kind: string): (schema: Json)
  {
    Obj(map["type" := Str(kind)])
  }

  lemma {:induction false} OfTypeParts(kind: string)
    ensures OfType(kind).Obj?
    ensures Find(OfType(kind), "type") == Some(Str(kind)) && Missing(OfType(kind), "properties")
    ensures Missing(OfType(kind), "required") && Missing(OfType(kind), "items")
    ensures Missing(OfType(kind), "additionalProperties") && Missing(OfType(kind), "enum")
  {
  }

  /** Which definitions by type alone are accepted, and which values each of them accepts. */
  lemma {:induction false} TypesDecide(kind: string, value: Json)
    ensures CheckDefinition(OfType(kind), "").None? <==>
              kind in {"object", "array", "string", "number", "integer", "boolean", "null"}
    ensures Accepts(OfType(kind), value) <==>
              || (kind == "object" && value.Obj?) || (kind == "array" && value.Arr?) || (kind == "string" && value.Str?)
              || (kind == "number" && (value.Int? || value.Float?)) || (kind == "integer" && value.Int?)
              || (kind == "boolean" && value.Bool?) || (kind == "null" && value.Null?)
  {
    OfTypeParts(kind);
    TypeAlone(value, OfType(kind), kind);
    hide OfType, Accepts;
    NamesDiffer();
  }

  lemma {:induction false} TypeAlone(value: Json, schema: Json, kind: string)
    requires Find(schema, "type") == Some(Str(kind)) && Missing(schema, "enum") && Missing(schema, "required")
    requires Missing(schema, "properties") && Missing(schema, "additionalProperties") && Missing(schema, "items")
    ensures Accepts(schema, value) <==> HasType(value, kind)
  {
    hide HasType, Ascending;
    if HasType(value, kind) {
      if value.Obj? { assert ValidateMembers(value, schema, "$") == FINE; }
      assert Validate(value, schema, "$") == FINE;
    } else {
      assert Validate(value, schema, "$") == Message("$" + " must be " + kind);
      assert |"$" + " must be " + kind| > 0;
    }
  }

  lemma {:induction false} NamesDiffer()
    ensures var names := ["object", "array", "string", "number", "integer", "boolean", "null"];
            forall i, j | 0 <= i < j < 7 :: names[i] != names[j]
  {
    assert |"object"| == |"string"| == |"number"| == 6 && |"integer"| == |"boolean"| == 7;
    assert "object"[0] == 'o' && "string"[0] == 's' && "number"[0] == 'n';
    assert "integer"[0] == 'i' && "boolean"[0] == 'b';
  }

  // ---- how exact a check against an enum is ----

  /** A definition that allows one value only. */
  function Only(candidate: Json): (schema: Json)
    ensures WellFormed(schema)
  {
    var schema := Obj(map["enum" := Arr([candidate])]);
    assert Missing(schema, "type") && Missing(schema, "properties") && Missing(schema, "required");
    assert Missing(schema, "items") && Missing(schema, "additionalProperties");
    schema
  }

  predicate Accepts(schema: Json, value: Json)
  {
    Validate(value, schema, "$") == FINE
  }

  lemma {:induction false} OnlyAccepts(candidate: Json, value: Json)
    requires !value.Obj? && !value.Arr?
    ensures Accepts(Only(candidate), value) <==> Equal(candidate, value)
  {
    hide Equal, WellFormed;
    var schema := Only(candidate);
    assert Find(schema, "enum") == Some(Arr([candidate])) && Missing(schema, "type");
  }

  /** For just the integers whose bits behind the first 53 are zero does an enum that lists
      a floating number accept the integer, or one that lists the integer accept the
      floating number, exactly when the amounts are the same. */
  lemma {:induction false} EnumOfFloatExactly(x: int)
    ensures var n := if x < 0 then 0 - x else x;
            (forall amount: real :: Accepts(Only(Float(amount)), Int(x)) <==> x as real == amount) <==> n % Unit(n) == 0
    ensures forall amount: real :: Accepts(Only(Int(x)), Float(amount)) <==> Accepts(Only(Float(amount)), Int(x))
  {
    hide Accepts, Only;
    forall amount: real
      ensures Accepts(Only(Float(amount)), Int(x)) <==> Equal(Int(x), Float(amount))
      ensures Accepts(Only(Int(x)), Float(amount)) <==> Equal(Int(x), Float(amount))
    {
      FloatEqualExactly(x);
      OnlyAccepts(Float(amount), Int(x));
      OnlyAccepts(Int(x), Float(amount));
    }
    FloatEqualExactly(x);
    hide Equal, Unit;
  }

  /** For just the integers that both kinds of word can hold does an enum that lists an
      integer accept another exactly when they are the same. */
  lemma {:induction false} EnumOfWordExactly(x: int)
    requires InWord(x)
    ensures (forall y | InWord(y) :: Accepts(Only(Int(x)), Int(y)) <==> x == y) <==> 0 <= x < WORDS / 2
  {
    hide Accepts, Only;
    forall y ensures Accepts(Only(Int(x)), Int(y)) <==> Equal(Int(x), Int(y)) { OnlyAccepts(Int(x), Int(y)); }
    WordEqualExactly(x);
    hide Equal;
  }

  /** So an enum accepts values it does not list: an integer next to the floating number
      listed, and the largest word where -1 is listed. */
  lemma {:induction false} EnumAcceptsUnlisted()
    ensures Accepts(Only(Float(MANTISSA as real)), Int(MANTISSA + 1))
    ensures Accepts(Only(Int(-1)), Int(WORDS - 1))
  {
    OnlyAccepts(Float(MANTISSA as real), Int(MANTISSA + 1));
    OnlyAccepts(Int(-1), Int(WORDS - 1));
    hide Accepts, Only;
    assert RoundedTo(MANTISSA + 1, 1) == RoundedTo(MANTISSA + 1, 2) == MANTISSA;
  }
}
