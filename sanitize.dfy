/**
 * Input sanitization (`sanitizeInput`, `sanitizeObject`). The HTML purifier
 * (DOMPurify with the module's tag allow-list) is a parameter `purify`; the
 * model says where it is applied and what is left alone. Results are described
 * by their own (enumerable) properties, which is what `Object.entries`, the
 * database layer and JSON serialisation see.
 */
module Sanitize {
  import opened JsValues

  /** The key whose assignment reaches the inherited prototype setter instead of creating a property. */
  const ProtoKey: string := "__proto__"

  /** `sanitizeInput(input)`: strings go through the purifier, anything else is returned as is. */
  function SanitizeInput(input: Value, purify: string -> string): (r: Value)
    ensures !input.Str? ==> r == input
    ensures input.Str? ==> r == Str(purify(input.s))
  {
    if input.Str? then Str(purify(input.s)) else input
  }

  /** With an idempotent purifier, sanitizing an input twice is sanitizing it once. */
  lemma SanitizeInputIdempotent(input: Value, purify: string -> string)
    requires forall s :: purify(purify(s)) == purify(s)
    ensures SanitizeInput(SanitizeInput(input, purify), purify) == SanitizeInput(input, purify)
  {
  }

  /** Decimal text of an array index, as `Object.entries` gives it ("0", "1", ...). */
  function IndexKey(n: nat): string
    decreases n
  {
    var digit := ['0' + (n % 10) as char];
    if n < 10 then digit else IndexKey(n / 10) + digit
  }

  /** An index key starts with a digit, so it is never `__proto__`. */
  lemma {:induction false} IndexKeyIsNotProto(n: nat)
    ensures |IndexKey(n)| > 0 && '0' <= IndexKey(n)[0] <= '9'
    ensures IndexKey(n) != ProtoKey
    decreases n
  {
    if n >= 10 {
      IndexKeyIsNotProto(n / 10);
    }
    assert ProtoKey[0] == '_';
  }

  /** `Object.entries(obj)` of an object or an array. */
  function Entries(obj: Value): (entries: seq<Prop>)
    requires obj.Object? || obj.Array?
    ensures obj.Object? ==> entries == obj.props
    ensures obj.Array? ==> |entries| == |obj.items|
    ensures obj.Array? ==> forall i :: 0 <= i < |entries| ==> entries[i] == Prop(IndexKey(i), obj.items[i])
  {
    if obj.Object? then obj.props
    else seq(|obj.items|, i requires 0 <= i < |obj.items| => Prop(IndexKey(i), obj.items[i]))
  }

  /** Some property of `props` has key `key`. */
  predicate HasKey(props: seq<Prop>, key: string)
  {
    exists p :: p in props && p.key == key
  }

  /**
   * `target[key] = value` on an object that started as `{}` and only received
   * distinct own keys: `__proto__` goes to the inherited prototype setter and
   * adds no own property; any other key becomes the next property.
   */
  function SetProperty(props: seq<Prop>, key: string, value: Value): seq<Prop>
  {
    if key == ProtoKey then props else props + [Prop(key, value)]
  }

  /** The own properties of `{}` after assigning `props` to it one by one, in order. */
  function Assigned(props: seq<Prop>): seq<Prop>
  {
    if props == [] then []
    else
      var last := props[|props| - 1];
      SetProperty(Assigned(props[..|props| - 1]), last.key, last.value)
  }

  /** Assignment keeps exactly the properties whose key is not `__proto__`. */
  lemma {:induction false} AssignedMembers(props: seq<Prop>)
    ensures forall p :: p in Assigned(props) <==> p in props && p.key != ProtoKey
  {
    if props != [] {
      var n := |props| - 1;
      AssignedMembers(props[..n]);
      assert props == props[..n] + [props[n]];
    }
  }

  lemma AssignedStep(props: seq<Prop>, i: nat)
    requires i < |props|
    ensures Assigned(props[..i + 1]) == SetProperty(Assigned(props[..i]), props[i].key, props[i].value)
  {
    assert props[..i + 1][..i] == props[..i];
  }

  /** Without a `__proto__` key, assignment keeps every property, in order. */
  lemma {:induction false} AssignedWithoutProto(props: seq<Prop>)
    requires forall i :: 0 <= i < |props| ==> props[i].key != ProtoKey
    ensures Assigned(props) == props
  {
    if props != [] {
      var n := |props| - 1;
      var init := props[..n];
      forall i | 0 <= i < |init|
        ensures init[i].key != ProtoKey
      {
        assert init[i] == props[i];
      }
      AssignedWithoutProto(init);
      assert props[n].key != ProtoKey;
      assert Assigned(props) == SetProperty(init, props[n].key, props[n].value);
      assert init + [props[n]] == props;
    }
  }

  /** What `sanitizeObject` does with a value that is not an object or array: `!obj || typeof obj !== 'object'`. */
  predicate ReturnedAsIs(obj: Value)
  {
    !Truthy(obj) || !TypeofObject(obj)
  }

  /**
   * `sanitizeObject(obj, excludeKeys)`: falsy values and non-objects come back
   * unchanged; an object (or array) becomes a fresh plain object that received
   * each entry's sanitized value, in entry order.
   */
  function Sanitize(obj: Value, excludeKeys: seq<string>, purify: string -> string): (r: Value)
    decreases obj, 2
    ensures ReturnedAsIs(obj) ==> r == obj
    ensures !ReturnedAsIs(obj) ==> r.Object?
  {
    if ReturnedAsIs(obj) then obj
    else Object(Assigned(SanitizedEntries(obj, excludeKeys, purify)))
  }

  /** Each entry of `obj` paired with the value `sanitizeObject` assigns for it. */
  function SanitizedEntries(obj: Value, excludeKeys: seq<string>, purify: string -> string): (r: seq<Prop>)
    requires obj.Object? || obj.Array?
    decreases obj, 1
    ensures |r| == |Entries(obj)|
    ensures forall i :: 0 <= i < |r| ==>
              r[i] == Prop(Entries(obj)[i].key, SanitizeEntry(Entries(obj)[i].key, Entries(obj)[i].value, excludeKeys, purify))
  {
    var entries := Entries(obj);
    seq(|entries|, i requires 0 <= i < |entries| =>
      Prop(entries[i].key, SanitizeEntry(entries[i].key, entries[i].value, excludeKeys, purify)))
  }

  /** The items of an array property: strings purified, everything else (objects too) kept as is. */
  function SanitizeItems(items: seq<Value>, purify: string -> string): (r: seq<Value>)
    ensures |r| == |items|
    ensures forall j :: 0 <= j < |items| ==> r[j] == if items[j].Str? then Str(purify(items[j].s)) else items[j]
  {
    seq(|items|, j requires 0 <= j < |items| => if items[j].Str? then SanitizeInput(items[j], purify) else items[j])
  }

  /** The value `sanitizeObject` assigns under `key` for the property value `value`. */
  function SanitizeEntry(key: string, value: Value, excludeKeys: seq<string>, purify: string -> string): Value
    decreases value, 3
  {
    if key in excludeKeys then value
    else if Truthy(value) && TypeofObject(value) && !value.Array? then Sanitize(value, excludeKeys, purify)
    else if value.Array? then Array(SanitizeItems(value.items, purify))
    else if value.Str? then SanitizeInput(value, purify)
    else value
  }

  /** `sanitizeObject`, filling the result object key by key. */
  method SanitizeObject(obj: Value, excludeKeys: seq<string>, purify: string -> string) returns (r: Value)
    decreases obj
    ensures r == Sanitize(obj, excludeKeys, purify)
  {
    if !Truthy(obj) || !TypeofObject(obj) {
      return obj;
    }
    var entries := Entries(obj);
    ghost var cleaned := SanitizedEntries(obj, excludeKeys, purify);
    var sanitized: seq<Prop> := [];
    for i := 0 to |entries|
      invariant sanitized == Assigned(cleaned[..i])
    {
      var key, value := entries[i].key, entries[i].value;
      AssignedStep(cleaned, i);
      if key in excludeKeys {
        sanitized := SetProperty(sanitized, key, value);
        continue;
      }
      var clean: Value;
      if Truthy(value) && TypeofObject(value) && !value.Array? {
        clean := SanitizeObject(value, excludeKeys, purify);
      } else if value.Array? {
        clean := Array(SanitizeItems(value.items, purify));
      } else if value.Str? {
        clean := SanitizeInput(value, purify);
      } else {
        clean := value;
      }
      assert clean == SanitizeEntry(key, value, excludeKeys, purify);
      sanitized := SetProperty(sanitized, key, clean);
    }
    assert cleaned[..|entries|] == cleaned;
    r := Object(sanitized);
  }

  /**
   * The keys of the result: every key of the input's entries except
   * `__proto__`, and no other. Without a `__proto__` entry the result has
   * exactly the entries' keys, in order.
   */
  lemma SanitizeKeys(obj: Value, excludeKeys: seq<string>, purify: string -> string)
    requires !ReturnedAsIs(obj)
    ensures forall k :: HasKey(Sanitize(obj, excludeKeys, purify).props, k) <==> k != ProtoKey && HasKey(Entries(obj), k)
    ensures !HasKey(Entries(obj), ProtoKey) ==>
              |Sanitize(obj, excludeKeys, purify).props| == |Entries(obj)| &&
              forall i :: 0 <= i < |Entries(obj)| ==> Sanitize(obj, excludeKeys, purify).props[i].key == Entries(obj)[i].key
  {
    var entries := Entries(obj);
    var cleaned := SanitizedEntries(obj, excludeKeys, purify);
    assert Sanitize(obj, excludeKeys, purify).props == Assigned(cleaned);
    AssignedHasKey(cleaned);
    SameKeys(cleaned, entries);
    if !HasKey(entries, ProtoKey) {
      forall i | 0 <= i < |cleaned|
        ensures cleaned[i].key != ProtoKey
      {
        assert entries[i] in entries;
      }
      AssignedWithoutProto(cleaned);
    }
  }

  /** A key is an own property after assignment exactly when it was assigned and is not `__proto__`. */
  lemma AssignedHasKey(props: seq<Prop>)
    ensures forall k :: HasKey(Assigned(props), k) <==> k != ProtoKey && HasKey(props, k)
  {
    AssignedMembers(props);
    forall k
      ensures HasKey(Assigned(props), k) <==> k != ProtoKey && HasKey(props, k)
    {
      if k != ProtoKey && HasKey(props, k) {
        var p :| p in props && p.key == k;
        assert p in Assigned(props);
      }
    }
  }

  /** Two property lists with the same keys position by position have the same keys. */
  lemma SameKeys(a: seq<Prop>, b: seq<Prop>)
    requires |a| == |b|
    requires forall i :: 0 <= i < |a| ==> a[i].key == b[i].key
    ensures forall k :: HasKey(a, k) <==> HasKey(b, k)
  {
    forall k
      ensures HasKey(a, k) <==> HasKey(b, k)
    {
      if HasKey(a, k) {
        var p :| p in a && p.key == k;
        var i :| 0 <= i < |a| && a[i] == p;
        assert b[i] in b;
      }
      if HasKey(b, k) {
        var p :| p in b && p.key == k;
        var i :| 0 <= i < |b| && b[i] == p;
        assert a[i] in a;
      }
    }
  }

  /** An own `__proto__` property is dropped: the assignment goes to the prototype setter. */
  lemma ProtoPropertyDropped(s: string, excludeKeys: seq<string>, purify: string -> string)
    ensures Sanitize(Object([Prop(ProtoKey, Str(s))]), excludeKeys, purify) == Object([])
  {
    var cleaned := SanitizedEntries(Object([Prop(ProtoKey, Str(s))]), excludeKeys, purify);
    assert |cleaned| == 1 && cleaned[0].key == ProtoKey;
    assert cleaned[..0] == [];
    assert Assigned(cleaned) == SetProperty(Assigned(cleaned[..0]), cleaned[0].key, cleaned[0].value);
  }

  /**
   * The rule for each key: an excluded key keeps its value verbatim; a nested
   * object is sanitized with the same excluded keys; an array keeps its length
   * and only its strings are purified; a string is purified; anything else is kept.
   */
  lemma EntryRules(key: string, value: Value, excludeKeys: seq<string>, purify: string -> string)
    ensures key in excludeKeys ==> SanitizeEntry(key, value, excludeKeys, purify) == value
    ensures key !in excludeKeys && value.Object? ==>
              SanitizeEntry(key, value, excludeKeys, purify) == Sanitize(value, excludeKeys, purify)
    ensures key !in excludeKeys && value.Array? ==>
              SanitizeEntry(key, value, excludeKeys, purify) == Array(SanitizeItems(value.items, purify))
    ensures key !in excludeKeys && value.Str? ==> SanitizeEntry(key, value, excludeKeys, purify) == Str(purify(value.s))
    ensures key !in excludeKeys && !value.Object? && !value.Array? && !value.Str? ==>
              SanitizeEntry(key, value, excludeKeys, purify) == value
  {
  }

  /** No own `__proto__` key in the object or in any object nested in it through object properties. */
  predicate ProtoFree(v: Value)
  {
    v.Object? ==> forall i :: 0 <= i < |v.props| ==> v.props[i].key != ProtoKey && ProtoFree(v.props[i].value)
  }

  /** A purifier that changes no string makes sanitizing an object without `__proto__` keys change nothing. */
  lemma {:induction false} IdentityPurifierKeepsObjects(obj: Value, excludeKeys: seq<string>, purify: string -> string)
    requires forall s :: purify(s) == s
    requires obj.Object? && ProtoFree(obj)
    ensures Sanitize(obj, excludeKeys, purify) == obj
    decreases obj, 0
  {
    var cleaned := SanitizedEntries(obj, excludeKeys, purify);
    forall i | 0 <= i < |obj.props|
      ensures cleaned[i] == obj.props[i]
    {
      IdentityPurifierKeepsEntries(obj.props[i].key, obj.props[i].value, excludeKeys, purify);
    }
    assert cleaned == obj.props;
    AssignedWithoutProto(obj.props);
  }

  lemma {:induction false} IdentityPurifierKeepsEntries(key: string, value: Value, excludeKeys: seq<string>, purify: string -> string)
    requires forall s :: purify(s) == s
    requires ProtoFree(value)
    ensures SanitizeEntry(key, value, excludeKeys, purify) == value
    decreases value, 1
  {
    if key !in excludeKeys {
      if value.Object? {
        IdentityPurifierKeepsObjects(value, excludeKeys, purify);
      } else if value.Array? {
        assert SanitizeItems(value.items, purify) == value.items;
        EntryRules(key, value, excludeKeys, purify);
      }
    }
  }

  /** With an idempotent purifier, sanitizing twice is sanitizing once. */
  lemma {:induction false} SanitizeIdempotent(obj: Value, excludeKeys: seq<string>, purify: string -> string)
    requires forall s :: purify(purify(s)) == purify(s)
    ensures Sanitize(Sanitize(obj, excludeKeys, purify), excludeKeys, purify) == Sanitize(obj, excludeKeys, purify)
    decreases obj, 0
  {
    if !ReturnedAsIs(obj) {
      var cleaned := SanitizedEntries(obj, excludeKeys, purify);
      var once := Sanitize(obj, excludeKeys, purify);
      assert once.props == Assigned(cleaned);
      var again := SanitizedEntries(once, excludeKeys, purify);
      AssignedMembers(cleaned);
      forall i | 0 <= i < |once.props|
        ensures again[i] == once.props[i] && once.props[i].key != ProtoKey
      {
        assert once.props[i] in Assigned(cleaned);
        var j :| 0 <= j < |cleaned| && cleaned[j] == once.props[i];
        var entry := Entries(obj)[j];
        EntryIdempotent(entry.key, entry.value, excludeKeys, purify);
      }
      assert again == once.props;
      AssignedWithoutProto(once.props);
    }
  }

  lemma {:induction false} EntryIdempotent(key: string, value: Value, excludeKeys: seq<string>, purify: string -> string)
    requires forall s :: purify(purify(s)) == purify(s)
    ensures SanitizeEntry(key, SanitizeEntry(key, value, excludeKeys, purify), excludeKeys, purify) ==
            SanitizeEntry(key, value, excludeKeys, purify)
    decreases value, 1
  {
    if key !in excludeKeys {
      var once := SanitizeEntry(key, value, excludeKeys, purify);
      EntryRules(key, value, excludeKeys, purify);
      EntryRules(key, once, excludeKeys, purify);
      if value.Object? {
        SanitizeIdempotent(value, excludeKeys, purify);
      } else if value.Array? {
        assert SanitizeItems(SanitizeItems(value.items, purify), purify) == SanitizeItems(value.items, purify);
      }
    }
  }

  /** A top-level array comes back as a plain object keyed "0", "1", ... */
  lemma ArrayBecomesObject(items: seq<Value>, excludeKeys: seq<string>, purify: string -> string)
    ensures Sanitize(Array(items), excludeKeys, purify).Object?
    ensures |Sanitize(Array(items), excludeKeys, purify).props| == |items|
    ensures forall i :: 0 <= i < |items| ==> Sanitize(Array(items), excludeKeys, purify).props[i].key == IndexKey(i)
  {
    var entries := Entries(Array(items));
    var cleaned := SanitizedEntries(Array(items), excludeKeys, purify);
    forall i | 0 <= i < |cleaned|
      ensures cleaned[i].key == IndexKey(i) != ProtoKey
    {
      assert cleaned[i].key == entries[i].key;
      IndexKeyIsNotProto(i);
    }
    AssignedWithoutProto(cleaned);
    assert Sanitize(Array(items), excludeKeys, purify).props == cleaned;
  }
}
