/**
 * The schema filter that copies FluentValidation rules into a Swagger
 * schema (TodoWebApi/Infrastructure/AddFluentValidationRules.cs). The
 * validator that reflection finds for the schema's type is an input
 * (`None` when the type has none).
 */
module FluentValidationRules {
  import opened Wrappers
  import opened Int32Text

  /** The four comparison validators `AddRule` is instantiated with. */
  datatype Comparison = GreaterThanOrEqual | GreaterThan | LessThanOrEqual | LessThan

  /**
   * A property validator. A comparison validator keeps the text its
   * `ValueToCompare` object prints as, `None` when that object is null.
   */
  datatype PropertyValidator =
    | NotEmpty
    | Length(min: int, max: int)
    | RegularExpression(expression: string)
    | Compare(comparison: Comparison, valueToCompare: Option<string>)
    | Other

  /** A type's validator: the property validators it declares per member. */
  datatype ValidatorDescriptor = ValidatorDescriptor(rules: map<string, seq<PropertyValidator>>) {
    function ValidatorsForMember(name: string): seq<PropertyValidator> {
      if name in rules then rules[name] else []
    }
  }

  /** The constraint fields of one property's schema; `None` is null. */
  datatype PropertySchema = PropertySchema(
    maxLength: Option<int>,
    minLength: Option<int>,
    pattern: Option<string>,
    minimum: Option<int>,
    exclusiveMinimum: Option<bool>,
    maximum: Option<int>,
    exclusiveMaximum: Option<bool>)

  /**
   * `AddRule<T>`'s guard: the number its action receives, if `v` is a
   * validator of kind `t` whose comparison value is non-null and parses as
   * a 32-bit integer.
   */
  function RuleValue(t: Comparison, v: PropertyValidator): (r: Option<int>)
    ensures r.Some? ==> v.Compare? && v.comparison == t && InInt32(r.value)
  {
    if v.Compare? && v.comparison == t && v.valueToCompare.Some? then
      TryParseInt32(v.valueToCompare.value)
    else
      None
  }

  /** `AddRule<T>`'s action for each `T`: the bound and its exclusive flag. */
  function Bound(t: Comparison, n: int, p: PropertySchema): PropertySchema {
    match t
    case GreaterThanOrEqual => p.(minimum := Some(n), exclusiveMinimum := Some(false))
    case GreaterThan => p.(minimum := Some(n), exclusiveMinimum := Some(true))
    case LessThanOrEqual => p.(maximum := Some(n), exclusiveMaximum := Some(false))
    case LessThan => p.(maximum := Some(n), exclusiveMaximum := Some(true))
  }

  /** The effect of one `AddRule<T>` call on a property. */
  function ApplyRule(t: Comparison, v: PropertyValidator, p: PropertySchema): PropertySchema {
    match RuleValue(t, v)
    case Some(n) => Bound(t, n, p)
    case None => p
  }

  /** The effect of one validator on its property, check by check as the filter makes them. */
  function ApplyValidator(p: PropertySchema, v: PropertyValidator): PropertySchema {
    var p1 := if v.Length? && v.max > 0 then p.(maxLength := Some(v.max)) else p;
    var p2 := if v.Length? && v.min > 0 then p1.(minLength := Some(v.min)) else p1;
    var p3 := if v.RegularExpression? then p2.(pattern := Some(v.expression)) else p2;
    var p4 := ApplyRule(GreaterThanOrEqual, v, p3);
    var p5 := ApplyRule(GreaterThan, v, p4);
    var p6 := ApplyRule(LessThanOrEqual, v, p5);
    ApplyRule(LessThan, v, p6)
  }

  /** The effect of a member's validators, processed in order. */
  function ApplyValidators(p: PropertySchema, vs: seq<PropertyValidator>): PropertySchema {
    if vs == [] then p else ApplyValidator(ApplyValidators(p, vs[..|vs| - 1]), vs[|vs| - 1])
  }

  /** The `required` entries one member contributes: `key` once per NotEmpty validator. */
  function RequiredFor(key: string, vs: seq<PropertyValidator>): seq<string> {
    if vs == [] then []
    else RequiredFor(key, vs[..|vs| - 1]) + (if vs[|vs| - 1].NotEmpty? then [key] else [])
  }

  /** The `required` list built over the property keys, in their order. */
  function RequiredKeys(keys: seq<string>, d: ValidatorDescriptor): seq<string> {
    if keys == [] then []
    else RequiredKeys(keys[..|keys| - 1], d) + RequiredFor(keys[|keys| - 1], d.ValidatorsForMember(keys[|keys| - 1]))
  }

  /** The property schemas after processing `keys` in order. */
  function ApplyProperties(props: map<string, PropertySchema>, keys: seq<string>, d: ValidatorDescriptor)
    : (r: map<string, PropertySchema>)
    ensures r.Keys == props.Keys
  {
    if keys == [] then props
    else
      var m := ApplyProperties(props, keys[..|keys| - 1], d);
      var key := keys[|keys| - 1];
      if key in m then m[key := ApplyValidators(m[key], d.ValidatorsForMember(key))] else m
  }

  predicate Distinct(keys: seq<string>) {
    forall i, j :: 0 <= i < j < |keys| ==> keys[i] != keys[j]
  }

  /** How many NotEmpty validators `vs` holds. */
  function CountNotEmpty(vs: seq<PropertyValidator>): nat {
    if vs == [] then 0 else CountNotEmpty(vs[..|vs| - 1]) + (if vs[|vs| - 1].NotEmpty? then 1 else 0)
  }

  /** Every entry a member contributes to `required` is that member's key. */
  lemma {:induction false} RequiredForIsKey(key: string, vs: seq<PropertyValidator>, i: int)
    requires 0 <= i < |RequiredFor(key, vs)|
    ensures RequiredFor(key, vs)[i] == key
  {
    var init := RequiredFor(key, vs[..|vs| - 1]);
    if i < |init| {
      RequiredForIsKey(key, vs[..|vs| - 1], i);
    }
  }

  /** Every entry of the rebuilt `required` list is a schema property key. */
  lemma {:induction false} RequiredKeysArePropertyKeys(keys: seq<string>, d: ValidatorDescriptor, i: int)
    requires 0 <= i < |RequiredKeys(keys, d)|
    ensures RequiredKeys(keys, d)[i] in keys
  {
    var init := keys[..|keys| - 1];
    var last := keys[|keys| - 1];
    var r0 := RequiredKeys(init, d);
    if i < |r0| {
      RequiredKeysArePropertyKeys(init, d, i);
    } else {
      RequiredForIsKey(last, d.ValidatorsForMember(last), i - |r0|);
    }
  }

  lemma {:induction false} RequiredForCount(key: string, vs: seq<PropertyValidator>, k: string)
    ensures multiset(RequiredFor(key, vs))[k] == if k == key then CountNotEmpty(vs) else 0
  {
    if vs != [] {
      RequiredForCount(key, vs[..|vs| - 1], k);
    }
  }

  /**
   * After `Apply`, `required` holds each property key once per NotEmpty
   * validator on it, and nothing else.
   */
  lemma {:induction false} RequiredKeysCount(keys: seq<string>, d: ValidatorDescriptor, k: string)
    requires Distinct(keys)
    ensures multiset(RequiredKeys(keys, d))[k] ==
      if k in keys then CountNotEmpty(d.ValidatorsForMember(k)) else 0
  {
    if keys != [] {
      var init := keys[..|keys| - 1];
      var last := keys[|keys| - 1];
      RequiredKeysCount(init, d, k);
      RequiredForCount(last, d.ValidatorsForMember(last), k);
      assert keys == init + [last];
      if k == last {
        assert k !in init;
      }
    }
  }

  /**
   * `required` follows the order of the property keys: no entry for a later
   * key comes before an entry for an earlier one.
   */
  lemma {:induction false} RequiredKeysInKeyOrder(keys: seq<string>, d: ValidatorDescriptor, i: int, j: int, p: int, q: int)
    requires Distinct(keys) && 0 <= i < j < |keys|
    requires 0 <= p < q < |RequiredKeys(keys, d)|
    ensures !(RequiredKeys(keys, d)[p] == keys[j] && RequiredKeys(keys, d)[q] == keys[i])
  {
    var init := keys[..|keys| - 1];
    var last := keys[|keys| - 1];
    var r0 := RequiredKeys(init, d);
    var r := RequiredKeys(keys, d);
    assert r == r0 + RequiredFor(last, d.ValidatorsForMember(last));
    if q < |r0| {
      if j < |keys| - 1 {
        RequiredKeysInKeyOrder(init, d, i, j, p, q);
      } else {
        // keys[j] is the last key, which no entry of r0 names
        RequiredKeysArePropertyKeys(init, d, p);
        assert r[p] == r0[p] && r0[p] in init;
        assert r[p] != keys[j];
      }
    } else {
      RequiredForIsKey(last, d.ValidatorsForMember(last), q - |r0|);
      assert r[q] == last;
      assert keys[i] != last;
    }
  }

  /**
   * `Apply` changes only the properties it processes, and each of them
   * exactly as its own validators say.
   */
  lemma {:induction false} ApplyPropertiesAt(props: map<string, PropertySchema>, keys: seq<string>, d: ValidatorDescriptor, k: string)
    requires Distinct(keys) && k in props
    ensures ApplyProperties(props, keys, d)[k] ==
      if k in keys then ApplyValidators(props[k], d.ValidatorsForMember(k)) else props[k]
  {
    if keys != [] {
      var init := keys[..|keys| - 1];
      var last := keys[|keys| - 1];
      ApplyPropertiesAt(props, init, d, k);
      assert keys == init + [last];
      if k == last {
        assert k !in init;
      }
    }
  }

  /** A validator with no rules at all still clears `required` and changes no property. */
  lemma {:induction false} EmptyValidatorClearsRequired(props: map<string, PropertySchema>, keys: seq<string>)
    ensures RequiredKeys(keys, ValidatorDescriptor(map[])) == []
    ensures ApplyProperties(props, keys, ValidatorDescriptor(map[])) == props
  {
    if keys != [] {
      EmptyValidatorClearsRequired(props, keys[..|keys| - 1]);
    }
  }

  /** The constraint fields of a property schema. */
  datatype Field = MaxLength | MinLength | Pattern | Minimum | ExclusiveMinimum | Maximum | ExclusiveMaximum

  /** The content of one field; `Unset` for null. */
  datatype FieldValue = Unset | IntValue(n: int) | TextValue(text: string) | FlagValue(flag: bool)

  function IntField(o: Option<int>): FieldValue {
    if o.Some? then IntValue(o.value) else Unset
  }

  function FlagField(o: Option<bool>): FieldValue {
    if o.Some? then FlagValue(o.value) else Unset
  }

  function FieldOf(p: PropertySchema, f: Field): FieldValue {
    match f
    case MaxLength => IntField(p.maxLength)
    case MinLength => IntField(p.minLength)
    case Pattern => if p.pattern.Some? then TextValue(p.pattern.value) else Unset
    case Minimum => IntField(p.minimum)
    case ExclusiveMinimum => FlagField(p.exclusiveMinimum)
    case Maximum => IntField(p.maximum)
    case ExclusiveMaximum => FlagField(p.exclusiveMaximum)
  }

  /** A property schema is determined by its fields. */
  lemma FieldsDetermine(p: PropertySchema, q: PropertySchema)
    requires forall f :: FieldOf(p, f) == FieldOf(q, f)
    ensures p == q
  {
    assert FieldOf(p, MaxLength) == FieldOf(q, MaxLength);
    assert FieldOf(p, MinLength) == FieldOf(q, MinLength);
    assert FieldOf(p, Pattern) == FieldOf(q, Pattern);
    assert FieldOf(p, Minimum) == FieldOf(q, Minimum);
    assert FieldOf(p, ExclusiveMinimum) == FieldOf(q, ExclusiveMinimum);
    assert FieldOf(p, Maximum) == FieldOf(q, Maximum);
    assert FieldOf(p, ExclusiveMaximum) == FieldOf(q, ExclusiveMaximum);
  }

  /** What a comparison rule with the number `n` writes into each field. */
  function BoundAssigns(t: Comparison, n: int, f: Field): FieldValue {
    if f == Minimum && (t == GreaterThanOrEqual || t == GreaterThan) then IntValue(n)
    else if f == ExclusiveMinimum && (t == GreaterThanOrEqual || t == GreaterThan) then FlagValue(t == GreaterThan)
    else if f == Maximum && (t == LessThanOrEqual || t == LessThan) then IntValue(n)
    else if f == ExclusiveMaximum && (t == LessThanOrEqual || t == LessThan) then FlagValue(t == LessThan)
    else Unset
  }

  /**
   * What a validator writes into each field, `Unset` where it writes
   * nothing: lengths only when positive, the pattern always, a bound and
   * its exclusive flag only for a non-null value that parses as a 32-bit
   * integer.
   */
  function Assigns(v: PropertyValidator, f: Field): FieldValue {
    match v
    case Length(min, max) =>
      if f == MaxLength && max > 0 then IntValue(max)
      else if f == MinLength && min > 0 then IntValue(min)
      else Unset
    case RegularExpression(e) => if f == Pattern then TextValue(e) else Unset
    case Compare(t, value) =>
      var parsed := if value.Some? then TryParseInt32(value.value) else None;
      if parsed.None? then Unset else BoundAssigns(t, parsed.value, f)
    case NotEmpty => Unset
    case Other => Unset
  }

  /** A comparison rule's action writes its bound and exclusive flag and nothing else. */
  lemma BoundByField(p: PropertySchema, t: Comparison, n: int, f: Field)
    ensures FieldOf(Bound(t, n, p), f) == if BoundAssigns(t, n, f) != Unset then BoundAssigns(t, n, f) else FieldOf(p, f)
  {
  }

  /** One validator writes exactly the fields the table lists and leaves the rest. */
  lemma ApplyValidatorByField(p: PropertySchema, v: PropertyValidator, f: Field)
    ensures FieldOf(ApplyValidator(p, v), f) == if Assigns(v, f) != Unset then Assigns(v, f) else FieldOf(p, f)
  {
    match v
    case Compare(t, value) =>
      var parsed := if value.Some? then TryParseInt32(value.value) else None;
      assert RuleValue(t, v) == parsed;
      if parsed.Some? {
        assert ApplyValidator(p, v) == Bound(t, parsed.value, p);
        BoundByField(p, t, parsed.value, f);
      } else {
        assert ApplyValidator(p, v) == p;
      }
    case Length(min, max) =>
      var p1 := if max > 0 then p.(maxLength := Some(max)) else p;
      assert ApplyValidator(p, v) == if min > 0 then p1.(minLength := Some(min)) else p1;
    case RegularExpression(e) =>
      assert ApplyValidator(p, v) == p.(pattern := Some(e));
    case NotEmpty =>
      assert ApplyValidator(p, v) == p;
    case Other =>
      assert ApplyValidator(p, v) == p;
  }

  /** Of several validators writing one field, the last one processed wins. */
  lemma {:induction false} LastAssignmentWins(p: PropertySchema, vs: seq<PropertyValidator>, f: Field, i: int)
    requires 0 <= i < |vs| && Assigns(vs[i], f) != Unset
    requires forall j :: i < j < |vs| ==> Assigns(vs[j], f) == Unset
    ensures FieldOf(ApplyValidators(p, vs), f) == Assigns(vs[i], f)
  {
    var init := vs[..|vs| - 1];
    ApplyValidatorByField(ApplyValidators(p, init), vs[|vs| - 1], f);
    if i < |vs| - 1 {
      LastAssignmentWins(p, init, f, i);
    }
  }

  /** A field no validator writes keeps its value. */
  lemma {:induction false} UnassignedFieldKept(p: PropertySchema, vs: seq<PropertyValidator>, f: Field)
    requires forall j :: 0 <= j < |vs| ==> Assigns(vs[j], f) == Unset
    ensures FieldOf(ApplyValidators(p, vs), f) == FieldOf(p, f)
  {
    if vs != [] {
      var init := vs[..|vs| - 1];
      ApplyValidatorByField(ApplyValidators(p, init), vs[|vs| - 1], f);
      UnassignedFieldKept(p, init, f);
    }
  }

  /** A comparison value that prints as a 32-bit integer reaches the rule's action. */
  lemma IntegerValueApplied(t: Comparison, n: int)
    requires InInt32(n)
    ensures RuleValue(t, Compare(t, Some(FormatInt(n)))) == Some(n)
  {
    FormatParseRoundTrip(n);
  }

  /** A comparison value that is null or does not parse changes nothing. */
  lemma UnparsableValueIgnored(p: PropertySchema, t: Comparison, value: Option<string>)
    requires value.None? || TryParseInt32(value.value).None?
    ensures ApplyValidator(p, Compare(t, value)) == p
  {
  }

  /** An integer comparison value outside the 32-bit range changes nothing. */
  lemma OutOfRangeValueIgnored(p: PropertySchema, t: Comparison, n: int)
    requires !InInt32(n)
    ensures ApplyValidator(p, Compare(t, Some(FormatInt(n)))) == p
  {
    FormatOutOfRangeRejected(n);
  }

  /** A schema whose dictionary enumerates its keys in `propertyKeys` order. */
  class Schema {
    var required: seq<string>
    var propertyKeys: seq<string>
    var properties: map<string, PropertySchema>

    ghost predicate Valid()
      reads this
    {
      Distinct(propertyKeys) && (forall k :: k in properties <==> k in propertyKeys)
    }

    constructor (keys: seq<string>, props: map<string, PropertySchema>, required: seq<string>)
      requires Distinct(keys) && (forall k :: k in props <==> k in keys)
      ensures Valid()
      ensures propertyKeys == keys && properties == props && this.required == required
    {
      propertyKeys := keys;
      properties := props;
      this.required := required;
    }

    /** `AddRule<T>` with the action that writes `T`'s bound into `properties[key]`. */
    method AddRule(t: Comparison, v: PropertyValidator, key: string)
      requires key in properties
      modifies this`properties
      ensures properties == old(properties)[key := ApplyRule(t, v, old(properties)[key])]
    {
      if v.Compare? && v.comparison == t {
        if v.valueToCompare.None? {
          assert properties == old(properties)[key := old(properties)[key]];
          return;
        }
        var parsed := TryParseInt32(v.valueToCompare.value);
        if parsed.Some? {
          properties := properties[key := Bound(t, parsed.value, properties[key])];
          return;
        }
      }
      assert properties == old(properties)[key := old(properties)[key]];
    }

    /** The body of the inner loop of `Apply`: one validator of the member `key`. */
    method ApplyPropertyValidator(key: string, v: PropertyValidator)
      requires key in properties
      modifies this`required, this`properties
      ensures required == old(required) + (if v.NotEmpty? then [key] else [])
      ensures properties == old(properties)[key := ApplyValidator(old(properties)[key], v)]
    {
      ghost var p := old(properties)[key];
      ghost var p1 := if v.Length? && v.max > 0 then p.(maxLength := Some(v.max)) else p;
      ghost var p2 := if v.Length? && v.min > 0 then p1.(minLength := Some(v.min)) else p1;
      ghost var p3 := if v.RegularExpression? then p2.(pattern := Some(v.expression)) else p2;
      if v.NotEmpty? {
        required := required + [key];
      }
      if v.Length? {
        if v.max > 0 {
          properties := properties[key := properties[key].(maxLength := Some(v.max))];
        }
        if v.min > 0 {
          properties := properties[key := properties[key].(minLength := Some(v.min))];
        }
      }
      assert properties == old(properties)[key := p2];
      if v.RegularExpression? {
        properties := properties[key := properties[key].(pattern := Some(v.expression))];
      }
      assert properties == old(properties)[key := p3];
      AddRule(GreaterThanOrEqual, v, key);
      AddRule(GreaterThan, v, key);
      assert properties == old(properties)[key := ApplyRule(GreaterThan, v, ApplyRule(GreaterThanOrEqual, v, p3))];
      AddRule(LessThanOrEqual, v, key);
      AddRule(LessThan, v, key);
    }

    /** The inner loop of `Apply`: every validator of the member `key`, in order. */
    method ApplyMemberValidators(key: string, validators: seq<PropertyValidator>)
      requires key in properties
      modifies this`required, this`properties
      ensures required == old(required) + RequiredFor(key, validators)
      ensures properties == old(properties)[key := ApplyValidators(old(properties)[key], validators)]
    {
      var j := 0;
      while j < |validators|
        invariant 0 <= j <= |validators|
        invariant required == old(required) + RequiredFor(key, validators[..j])
        invariant properties == old(properties)[key := ApplyValidators(old(properties)[key], validators[..j])]
      {
        ApplyPropertyValidator(key, validators[j]);
        assert validators[..j + 1][..j] == validators[..j];
        j := j + 1;
      }
      assert validators[..j] == validators;
    }

    /**
     * `Apply`: without a validator nothing changes; otherwise `required` is
     * rebuilt and each property's constraints are updated from its
     * validators.
     */
    method Apply(validator: Option<ValidatorDescriptor>)
      requires Valid()
      modifies this`required, this`properties
      ensures Valid()
      ensures validator.None? ==> required == old(required) && properties == old(properties)
      ensures validator.Some? ==> required == RequiredKeys(propertyKeys, validator.value)
      ensures validator.Some? ==> properties == ApplyProperties(old(properties), propertyKeys, validator.value)
    {
      if validator.None? {
        return;
      }
      var d := validator.value;
      required := [];
      var i := 0;
      while i < |propertyKeys|
        invariant 0 <= i <= |propertyKeys|
        invariant properties.Keys == old(properties).Keys
        invariant required == RequiredKeys(propertyKeys[..i], d)
        invariant properties == ApplyProperties(old(properties), propertyKeys[..i], d)
      {
        var key := propertyKeys[i];
        ghost var done := propertyKeys[..i + 1];
        assert done[..i] == propertyKeys[..i] && done[i] == key;
        ApplyMemberValidators(key, d.ValidatorsForMember(key));
        assert required == RequiredKeys(done, d);
        assert properties == ApplyProperties(old(properties), done, d);
        i := i + 1;
      }
      assert propertyKeys[..i] == propertyKeys;
    }
  }
}
