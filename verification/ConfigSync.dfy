/** Configuration bundles: the recursive sanitizer, and applying, rolling back and
    exporting what it produced. */
module ConfigSync {
  import opened Wrappers

  datatype Field = Field(key: string, value: Json)

  /** `Foreign` is a value that is no JSON scalar, object or list. */
  datatype Json =
    | Null | Bool(b: bool) | Int(n: int) | Float(x: real) | Str(s: string)
    | List(items: seq<Json>) | Object(fields: seq<Field>) | Foreign

  // Which names look secret

  const SECRET_FRAGMENTS: seq<string> :=
    ["secret", "password", "token", "api_key", "apikey", "private_key", "credential"]

  predicate Contains(s: string, part: string)
  {
    part <= s || (s != [] && Contains(s[1..], part))
  }

  /** Case folding, number formatting, sorting and the digest come from elsewhere.
      What is proved below holds for any list of fragments. */
  datatype Tools = Tools(fragments: seq<string>, lower: string -> string, show: Json -> string,
                         sorted: set<string> -> seq<string>, digestOf: Bundle -> string)

  predicate LooksSecret(t: Tools, key: string)
  {
    exists k :: 0 <= k < |t.fragments| && Contains(t.lower(key), t.fragments[k])
  }

  /** Containment is at any position. */
  lemma {:induction false} ContainsExactly(s: string, part: string)
    ensures Contains(s, part) <==> exists before, after :: s == before + part + after
    decreases |s|
  {
    if part <= s {
      assert s == [] + part + s[|part|..];
    } else if s != [] {
      ContainsExactly(s[1..], part);
      if before, after :| s == before + part + after {
        assert before != [];
        assert s[1..] == before[1..] + part + after;
      }
      if before, after :| s[1..] == before + part + after {
        assert s == ([s[0]] + before) + part + after;
      }
    } else {
      forall before, after ensures s != before + part + after {
        assert |before + part + after| == |before| + |part| + |after|;
      }
    }
  }

  lemma FragmentsAre()
    ensures SECRET_FRAGMENTS == ["secret", "password", "token", "api_key", "apikey", "private_key", "credential"]
  {
  }

  /** A name looks secret exactly when, lowered, it has a listed word somewhere in it. */
  lemma LooksSecretExactly(t: Tools, key: string)
    ensures LooksSecret(t, key) <==> exists before, part, after :: part in t.fragments && t.lower(key) == before + part + after
  {
    if LooksSecret(t, key) {
      var k :| 0 <= k < |t.fragments| && Contains(t.lower(key), t.fragments[k]);
      ContainsExactly(t.lower(key), t.fragments[k]);
    }
    if before, part, after :| part in t.fragments && t.lower(key) == before + part + after {
      ContainsExactly(t.lower(key), part);
      var k :| 0 <= k < |t.fragments| && t.fragments[k] == part;
      assert Contains(t.lower(key), t.fragments[k]);
    }
  }

  // The sanitized tree

  /** No unsupported value outside what is dropped. */
  predicate Cleanable(t: Tools, v: Json)
  {
    match v
    case List(items) => forall i :: 0 <= i < |items| ==> Cleanable(t, items[i])
    case Object(fields) => forall i :: 0 <= i < |fields| && !LooksSecret(t, fields[i].key) ==> Cleanable(t, fields[i].value)
    case Foreign => false
    case _ => true
  }

  function Clean(t: Tools, v: Json): Json
  {
    match v
    case List(items) => List(CleanItems(t, items))
    case Object(fields) => Object(CleanFields(t, fields))
    case _ => v
  }

  function CleanItems(t: Tools, items: seq<Json>): (cleaned: seq<Json>)
    ensures |cleaned| == |items|
  {
    if items == [] then [] else CleanItems(t, items[..|items| - 1]) + [Clean(t, items[|items| - 1])]
  }

  function CleanFields(t: Tools, fields: seq<Field>): seq<Field>
  {
    if fields == [] then []
    else
      var last := fields[|fields| - 1];
      CleanFields(t, fields[..|fields| - 1]) +
        if LooksSecret(t, last.key) then [] else [Field(last.key, Clean(t, last.value))]
  }

  function Digits(n: nat): string
  {
    var d := ['0' + (n % 10) as char];
    if n < 10 then d else Digits(n / 10) + d
  }

  function ChildPath(path: string, key: string): string
  {
    if path == "" then key else path + "." + key
  }

  function ItemPath(path: string, index: nat): string
  {
    path + "[" + Digits(index) + "]"
  }

  /** The paths reported as excluded, in the order they are met. */
  function Excluded(t: Tools, v: Json, path: string): seq<string>
  {
    match v
    case List(items) => ExcludedItems(t, items, path)
    case Object(fields) => ExcludedFields(t, fields, path)
    case _ => []
  }

  function ExcludedItems(t: Tools, items: seq<Json>, path: string): seq<string>
  {
    if items == [] then []
    else
      var n := |items| - 1;
      ExcludedItems(t, items[..n], path) + Excluded(t, items[n], ItemPath(path, n))
  }

  function ExcludedFields(t: Tools, fields: seq<Field>, path: string): seq<string>
  {
    if fields == [] then []
    else
      var last := fields[|fields| - 1];
      ExcludedFields(t, fields[..|fields| - 1], path) +
        if LooksSecret(t, last.key) then [ChildPath(path, last.key)] else Excluded(t, last.value, ChildPath(path, last.key))
  }

  ghost predicate ItemsDone(t: Tools, items: seq<Json>, i: nat, path: string, before: seq<string>, now: seq<string>, cleaned: seq<Json>)
  {
    && i <= |items|
    && cleaned == CleanItems(t, items[..i])
    && now == before + ExcludedItems(t, items[..i], path)
    && forall k :: 0 <= k < i ==> Cleanable(t, items[k])
  }

  ghost predicate FieldsDone(t: Tools, fields: seq<Field>, i: nat, path: string, before: seq<string>, now: seq<string>, cleaned: seq<Field>)
  {
    && i <= |fields|
    && cleaned == CleanFields(t, fields[..i])
    && now == before + ExcludedFields(t, fields[..i], path)
    && forall k :: 0 <= k < i && !LooksSecret(t, fields[k].key) ==> Cleanable(t, fields[k].value)
  }

  lemma FieldsDoneStep(t: Tools, fields: seq<Field>, i: nat, path: string, before: seq<string>, now: seq<string>, cleaned: seq<Field>)
    requires FieldsDone(t, fields, i, path, before, now, cleaned) && i < |fields|
    ensures LooksSecret(t, fields[i].key) ==>
              FieldsDone(t, fields, i + 1, path, before, now + [ChildPath(path, fields[i].key)], cleaned)
    ensures !LooksSecret(t, fields[i].key) && Cleanable(t, fields[i].value) ==>
              FieldsDone(t, fields, i + 1, path, before, now + Excluded(t, fields[i].value, ChildPath(path, fields[i].key)),
                         cleaned + [Field(fields[i].key, Clean(t, fields[i].value))])
  {
    assert fields[..i + 1][..i] == fields[..i];
  }

  /** The recursion that builds the cleaned value and appends to one shared list. */
  class Sanitizer {
    const tools: Tools
    var excluded: seq<string>

    constructor (tools: Tools)
      ensures this.tools == tools && excluded == []
    {
      this.tools := tools;
      excluded := [];
    }

    method SanitizeSettings(v: Json, path: string) returns (cleaned: Option<Json>)
      modifies this
      ensures cleaned.Some? <==> Cleanable(tools, v)
      ensures cleaned.Some? ==> cleaned.value == Clean(tools, v) && excluded == old(excluded) + Excluded(tools, v, path)
      decreases v, 1
    {
      match v {
        case Object(fields) =>
          var kept := SanitizeFields(v, path);
          return if kept.Some? then Some(Object(kept.value)) else None;
        case List(items) =>
          var kept := SanitizeItems(v, path);
          return if kept.Some? then Some(List(kept.value)) else None;
        case Foreign => return None;
        case _ => return Some(v);
      }
    }

    method SanitizeFields(v: Json, path: string) returns (kept: Option<seq<Field>>)
      requires v.Object?
      modifies this
      ensures kept.Some? <==> Cleanable(tools, v)
      ensures kept.Some? ==> kept.value == CleanFields(tools, v.fields) && excluded == old(excluded) + ExcludedFields(tools, v.fields, path)
      decreases v, 0
    {
      ghost var before := excluded;
      var cleaned := [];
      for i := 0 to |v.fields|
        invariant FieldsDone(tools, v.fields, i, path, before, excluded, cleaned)
      {
        var f := v.fields[i];
        FieldsDoneStep(tools, v.fields, i, path, before, excluded, cleaned);
        if LooksSecret(tools, f.key) {
          excluded := excluded + [ChildPath(path, f.key)];
        } else {
          var inner := SanitizeSettings(f.value, ChildPath(path, f.key));
          if inner.None? { return None; }
          cleaned := cleaned + [Field(f.key, inner.value)];
        }
      }
      assert v.fields[..|v.fields|] == v.fields;
      return Some(cleaned);
    }

    method SanitizeItems(v: Json, path: string) returns (kept: Option<seq<Json>>)
      requires v.List?
      modifies this
      ensures kept.Some? <==> Cleanable(tools, v)
      ensures kept.Some? ==> kept.value == CleanItems(tools, v.items) && excluded == old(excluded) + ExcludedItems(tools, v.items, path)
      decreases v, 0
    {
      ghost var before := excluded;
      var cleaned := [];
      for i := 0 to |v.items|
        invariant ItemsDone(tools, v.items, i, path, before, excluded, cleaned)
      {
        var inner := SanitizeSettings(v.items[i], ItemPath(path, i));
        if inner.None? { return None; }
        assert v.items[..i + 1][..i] == v.items[..i];
        cleaned := cleaned + [inner.value];
      }
      assert v.items[..|v.items|] == v.items;
      return Some(cleaned);
    }
  }

  // What sanitizing does to a tree

  /** No secret-looking name anywhere, at any depth. */
  predicate NoSecret(t: Tools, v: Json)
  {
    match v
    case List(items) => forall i :: 0 <= i < |items| ==> NoSecret(t, items[i])
    case Object(fields) => forall i :: 0 <= i < |fields| ==> !LooksSecret(t, fields[i].key) && NoSecret(t, fields[i].value)
    case _ => true
  }

  lemma {:induction false} CleanHasNoSecret(t: Tools, v: Json)
    ensures NoSecret(t, Clean(t, v))
    decreases v
  {
    match v {
      case List(items) => CleanItemsNoSecret(t, items);
      case Object(fields) => CleanFieldsNoSecret(t, fields);
      case _ =>
    }
  }

  lemma {:induction false} CleanItemsNoSecret(t: Tools, items: seq<Json>)
    ensures forall i :: 0 <= i < |items| ==> CleanItems(t, items)[i] == Clean(t, items[i]) && NoSecret(t, CleanItems(t, items)[i])
    decreases items
  {
    if items != [] {
      CleanItemsNoSecret(t, items[..|items| - 1]);
      CleanHasNoSecret(t, items[|items| - 1]);
    }
  }

  lemma {:induction false} CleanFieldsNoSecret(t: Tools, fields: seq<Field>)
    ensures forall f :: f in CleanFields(t, fields) ==> !LooksSecret(t, f.key) && NoSecret(t, f.value)
    decreases fields
  {
    if fields != [] {
      CleanFieldsNoSecret(t, fields[..|fields| - 1]);
      CleanHasNoSecret(t, fields[|fields| - 1].value);
    }
  }

  /** A tree without secret names is left exactly as it was. */
  lemma {:induction false} CleanFixes(t: Tools, v: Json)
    requires NoSecret(t, v)
    ensures Clean(t, v) == v
    decreases v
  {
    match v {
      case List(items) => CleanItemsFix(t, items);
      case Object(fields) => CleanFieldsFix(t, fields);
      case _ =>
    }
  }

  lemma {:induction false} CleanItemsFix(t: Tools, items: seq<Json>)
    requires forall i :: 0 <= i < |items| ==> NoSecret(t, items[i])
    ensures CleanItems(t, items) == items
    decreases items
  {
    if items != [] {
      CleanItemsFix(t, items[..|items| - 1]);
      CleanFixes(t, items[|items| - 1]);
    }
  }

  lemma {:induction false} CleanFieldsFix(t: Tools, fields: seq<Field>)
    requires forall i :: 0 <= i < |fields| ==> !LooksSecret(t, fields[i].key) && NoSecret(t, fields[i].value)
    ensures CleanFields(t, fields) == fields
    decreases fields
  {
    if fields != [] {
      CleanFieldsFix(t, fields[..|fields| - 1]);
      CleanFixes(t, fields[|fields| - 1].value);
    }
  }

  /** Sanitizing twice is sanitizing once, and nothing is excluded the second time. */
  lemma CleanIsIdempotent(t: Tools, v: Json, path: string)
    ensures Clean(t, Clean(t, v)) == Clean(t, v)
    ensures Excluded(t, Clean(t, v), path) == []
  {
    CleanHasNoSecret(t, v);
    CleanFixes(t, Clean(t, v));
    NothingExcluded(t, Clean(t, v), path);
  }

  lemma {:induction false} NothingExcluded(t: Tools, v: Json, path: string)
    requires NoSecret(t, v)
    ensures Excluded(t, v, path) == []
    decreases v
  {
    match v {
      case List(items) => NoItemExcluded(t, items, path);
      case Object(fields) => NoFieldExcluded(t, fields, path);
      case _ =>
    }
  }

  lemma {:induction false} NoItemExcluded(t: Tools, items: seq<Json>, path: string)
    requires forall i :: 0 <= i < |items| ==> NoSecret(t, items[i])
    ensures ExcludedItems(t, items, path) == []
    decreases items
  {
    if items != [] {
      var n := |items| - 1;
      NoItemExcluded(t, items[..n], path);
      NothingExcluded(t, items[n], ItemPath(path, n));
    }
  }

  lemma {:induction false} NoFieldExcluded(t: Tools, fields: seq<Field>, path: string)
    requires forall i :: 0 <= i < |fields| ==> !LooksSecret(t, fields[i].key) && NoSecret(t, fields[i].value)
    ensures ExcludedFields(t, fields, path) == []
    decreases fields
  {
    if fields != [] {
      var n := |fields| - 1;
      NoFieldExcluded(t, fields[..n], path);
      NothingExcluded(t, fields[n].value, ChildPath(path, fields[n].key));
    }
  }

  lemma {:induction false} CleanKeepsCleanable(t: Tools, v: Json)
    requires Cleanable(t, v)
    ensures Cleanable(t, Clean(t, v))
    decreases v
  {
    match v {
      case List(items) =>
        CleanItemsNoSecret(t, items);
        forall i | 0 <= i < |items| ensures Cleanable(t, CleanItems(t, items)[i]) { CleanKeepsCleanable(t, items[i]); }
      case Object(fields) => CleanFieldsCleanable(t, fields);
      case _ =>
    }
  }

  lemma {:induction false} CleanFieldsCleanable(t: Tools, fields: seq<Field>)
    requires forall i :: 0 <= i < |fields| && !LooksSecret(t, fields[i].key) ==> Cleanable(t, fields[i].value)
    ensures forall f :: f in CleanFields(t, fields) ==> Cleanable(t, f.value)
    decreases fields
  {
    if fields != [] {
      var last := fields[|fields| - 1];
      CleanFieldsCleanable(t, fields[..|fields| - 1]);
      if !LooksSecret(t, last.key) { CleanKeepsCleanable(t, last.value); }
    }
  }

  // Reading a tree by access path

  datatype Access = Key(k: string) | Index(i: nat)

  function FieldNamed(fields: seq<Field>, key: string): Option<Json>
  {
    if fields == [] then None
    else
      var last := fields[|fields| - 1];
      if last.key == key then Some(last.value) else FieldNamed(fields[..|fields| - 1], key)
  }

  function Get(v: Json, path: seq<Access>): Option<Json>
    decreases |path|
  {
    if path == [] then Some(v)
    else
      match path[0]
      case Key(k) =>
        if v.Object? && FieldNamed(v.fields, k).Some? then Get(FieldNamed(v.fields, k).value, path[1..]) else None
      case Index(i) =>
        if v.List? && i < |v.items| then Get(v.items[i], path[1..]) else None
  }

  predicate Names(t: Tools, path: seq<Access>)
  {
    exists i :: 0 <= i < |path| && path[i].Key? && LooksSecret(t, path[i].k)
  }

  lemma {:induction false} FieldAfterClean(t: Tools, fields: seq<Field>, key: string)
    ensures FieldNamed(CleanFields(t, fields), key) ==
            if LooksSecret(t, key) then None
            else if FieldNamed(fields, key).Some? then Some(Clean(t, FieldNamed(fields, key).value)) else None
    decreases fields
  {
    if fields != [] {
      var before, last := fields[..|fields| - 1], fields[|fields| - 1];
      FieldAfterClean(t, before, key);
      if !LooksSecret(t, last.key) {
        var cleaned := CleanFields(t, fields);
        assert cleaned[..|cleaned| - 1] == CleanFields(t, before);
      } else {
        assert CleanFields(t, fields) == CleanFields(t, before);
      }
    }
  }

  /** Nothing changes outside the removed subtrees: along an access path with no
      secret name the sanitized tree holds the sanitized value of what was there,
      and along one with a secret name it holds nothing. */
  lemma {:induction false} GetAfterClean(t: Tools, v: Json, path: seq<Access>)
    ensures Get(Clean(t, v), path) ==
            if Names(t, path) then None
            else if Get(v, path).Some? then Some(Clean(t, Get(v, path).value)) else None
    decreases |path|
  {
    if path != [] {
      var rest := path[1..];
      assert Names(t, path) <==> (path[0].Key? && LooksSecret(t, path[0].k)) || Names(t, rest) by {
        if Names(t, rest) {
          var i :| 0 <= i < |rest| && rest[i].Key? && LooksSecret(t, rest[i].k);
          assert path[i + 1] == rest[i];
        }
        if Names(t, path) {
          var i :| 0 <= i < |path| && path[i].Key? && LooksSecret(t, path[i].k);
          if 0 < i { assert rest[i - 1] == path[i]; }
        }
      }
      match path[0] {
        case Key(k) =>
          if v.Object? {
            FieldAfterClean(t, v.fields, k);
            if FieldNamed(v.fields, k).Some? { GetAfterClean(t, FieldNamed(v.fields, k).value, rest); }
          }
        case Index(i) =>
          if v.List? && i < |v.items| {
            CleanItemsNoSecret(t, v.items);
            GetAfterClean(t, v.items[i], rest);
          }
      }
    }
  }

  lemma {:induction false} NoSecretAt(t: Tools, v: Json, path: seq<Access>)
    requires NoSecret(t, v) && Get(v, path).Some?
    ensures NoSecret(t, Get(v, path).value)
    decreases |path|
  {
    if path != [] {
      match path[0] {
        case Key(k) =>
          FieldIsMember(v.fields, k);
          NoSecretAt(t, FieldNamed(v.fields, k).value, path[1..]);
        case Index(i) => NoSecretAt(t, v.items[i], path[1..]);
      }
    }
  }

  lemma {:induction false} FieldIsMember(fields: seq<Field>, key: string)
    requires FieldNamed(fields, key).Some?
    ensures Field(key, FieldNamed(fields, key).value) in fields
    decreases fields
  {
    if fields[|fields| - 1].key != key { FieldIsMember(fields[..|fields| - 1], key); }
  }

  // What is reported as excluded

  /** Nothing is reported exactly when there was nothing to remove. */
  lemma ExcludedExactly(t: Tools, v: Json, path: string)
    ensures Excluded(t, v, path) == [] <==> Clean(t, v) == v
  {
    if Excluded(t, v, path) == [] {
      NoneExcludedNoSecret(t, v, path);
      CleanFixes(t, v);
    }
    if Clean(t, v) == v {
      CleanHasNoSecret(t, v);
      NothingExcluded(t, v, path);
    }
  }

  lemma {:induction false} NoneExcludedNoSecret(t: Tools, v: Json, path: string)
    requires Excluded(t, v, path) == []
    ensures NoSecret(t, v)
    decreases v
  {
    match v {
      case List(items) => NoItemHasSecret(t, items, path);
      case Object(fields) => NoFieldHasSecret(t, fields, path);
      case _ =>
    }
  }

  lemma {:induction false} NoItemHasSecret(t: Tools, items: seq<Json>, path: string)
    requires ExcludedItems(t, items, path) == []
    ensures forall i :: 0 <= i < |items| ==> NoSecret(t, items[i])
    decreases items
  {
    if items != [] {
      var n := |items| - 1;
      NoItemHasSecret(t, items[..n], path);
      NoneExcludedNoSecret(t, items[n], ItemPath(path, n));
    }
  }

  lemma {:induction false} NoFieldHasSecret(t: Tools, fields: seq<Field>, path: string)
    requires ExcludedFields(t, fields, path) == []
    ensures forall i :: 0 <= i < |fields| ==> !LooksSecret(t, fields[i].key) && NoSecret(t, fields[i].value)
    decreases fields
  {
    if fields != [] {
      var n := |fields| - 1;
      var last, child := fields[n], ChildPath(path, fields[n].key);
      var own := if LooksSecret(t, last.key) then [child] else Excluded(t, last.value, child);
      assert ExcludedFields(t, fields, path) == ExcludedFields(t, fields[..n], path) + own;
      assert own == [];
      NoFieldHasSecret(t, fields[..n], path);
      NoneExcludedNoSecret(t, last.value, child);
    }
  }

  /** An access path as it is written: names joined by dots, positions in brackets. */
  function Written(path: string, access: seq<Access>): string
    decreases |access|
  {
    if access == [] then path
    else
      match access[0]
      case Key(k) => Written(if path == "" then k else path + "." + k, access[1..])
      case Index(i) => Written(path + "[" + Digits(i) + "]", access[1..])
  }

  lemma {:induction false} ItemExclusions(t: Tools, items: seq<Json>, path: string, i: nat, name: string)
    requires i < |items| && name in Excluded(t, items[i], ItemPath(path, i))
    ensures name in ExcludedItems(t, items, path)
    decreases items
  {
    if i < |items| - 1 { ItemExclusions(t, items[..|items| - 1], path, i, name); }
  }

  lemma {:induction false} FieldExclusions(t: Tools, fields: seq<Field>, path: string, f: Field, name: string)
    requires f in fields
    requires if LooksSecret(t, f.key) then name == ChildPath(path, f.key) else name in Excluded(t, f.value, ChildPath(path, f.key))
    ensures name in ExcludedFields(t, fields, path)
    decreases fields
  {
    if fields[|fields| - 1] != f { FieldExclusions(t, fields[..|fields| - 1], path, f, name); }
  }

  /** Every removed name that an access path reaches is reported, written out in full. */
  lemma {:induction false} RemovedIsReported(t: Tools, v: Json, path: string, access: seq<Access>, fields: seq<Field>, f: Field)
    requires !Names(t, access) && Get(v, access) == Some(Object(fields)) && f in fields && LooksSecret(t, f.key)
    ensures Written(path, access + [Key(f.key)]) in Excluded(t, v, path)
    decreases |access|
  {
    if access == [] {
      assert [] + [Key(f.key)] == [Key(f.key)] && [Key(f.key)][1..] == [];
      assert Written(path, [Key(f.key)]) == Written(ChildPath(path, f.key), []);
      FieldExclusions(t, fields, path, f, ChildPath(path, f.key));
    } else {
      var rest := access[1..];
      assert (access + [Key(f.key)])[1..] == rest + [Key(f.key)] && (access + [Key(f.key)])[0] == access[0];
      assert !Names(t, rest) by {
        if i :| 0 <= i < |rest| && rest[i].Key? && LooksSecret(t, rest[i].k) { assert access[i + 1] == rest[i]; }
      }
      match access[0] {
        case Key(k) =>
          var inner := FieldNamed(v.fields, k).value;
          FieldIsMember(v.fields, k);
          RemovedIsReported(t, inner, ChildPath(path, k), rest, fields, f);
          FieldExclusions(t, v.fields, path, Field(k, inner), Written(ChildPath(path, k), rest + [Key(f.key)]));
        case Index(i) =>
          RemovedIsReported(t, v.items[i], ItemPath(path, i), rest, fields, f);
          ItemExclusions(t, v.items, path, i, Written(ItemPath(path, i), rest + [Key(f.key)]));
      }
    }
  }

  lemma DigitsExample()
    ensures Digits(0) == "0" && Digits(12) == "12"
  {
    assert Digits(1) == "1";
  }

  // Environment entries

  const ENV_PREFIX := "RUNSPECIMEN_"

  predicate KeepsEnv(t: Tools, key: string)
  {
    !LooksSecret(t, key) && ENV_PREFIX <= key
  }

  predicate EnvCleanable(t: Tools, env: seq<Field>)
  {
    forall i :: 0 <= i < |env| && KeepsEnv(t, env[i].key) ==> env[i].value.Str? || env[i].value.Int? || env[i].value.Float?
  }

  function EnvText(t: Tools, v: Json): Json
  {
    if v.Str? then v else Str(t.show(v))
  }

  function CleanEnv(t: Tools, env: seq<Field>): seq<Field>
  {
    if env == [] then []
    else
      var last := env[|env| - 1];
      CleanEnv(t, env[..|env| - 1]) + if KeepsEnv(t, last.key) then [Field(last.key, EnvText(t, last.value))] else []
  }

  function SecretNames(t: Tools, env: seq<Field>): set<string>
  {
    set i | 0 <= i < |env| && LooksSecret(t, env[i].key) :: env[i].key
  }

  method SanitizeEnv(t: Tools, env: seq<Field>) returns (ok: bool, cleaned: seq<Field>, secrets: set<string>)
    ensures ok <==> EnvCleanable(t, env)
    ensures ok ==> cleaned == CleanEnv(t, env) && secrets == SecretNames(t, env)
  {
    ok, cleaned, secrets := true, [], {};
    for i := 0 to |env|
      invariant ok && cleaned == CleanEnv(t, env[..i])
      invariant secrets == set k | 0 <= k < i && LooksSecret(t, env[k].key) :: env[k].key
      invariant forall k :: 0 <= k < i && KeepsEnv(t, env[k].key) ==> env[k].value.Str? || env[k].value.Int? || env[k].value.Float?
    {
      var f := env[i];
      assert env[..i + 1][..i] == env[..i] && env[..i + 1][i] == f;
      if LooksSecret(t, f.key) {
        secrets := secrets + {f.key};
      } else if ENV_PREFIX <= f.key {
        if !(f.value.Str? || f.value.Int? || f.value.Float?) {
          return false, cleaned, secrets;
        }
        cleaned := cleaned + [Field(f.key, EnvText(t, f.value))];
      }
    }
    assert env[..|env|] == env;
  }

  lemma {:induction false} CleanEnvShape(t: Tools, env: seq<Field>)
    requires EnvCleanable(t, env)
    ensures forall i :: 0 <= i < |CleanEnv(t, env)| ==> KeepsEnv(t, CleanEnv(t, env)[i].key) && CleanEnv(t, env)[i].value.Str?
  {
    if env != [] {
      CleanEnvShape(t, env[..|env| - 1]);
    }
  }

  lemma {:induction false} CleanEnvFixes(t: Tools, env: seq<Field>)
    requires forall i :: 0 <= i < |env| ==> KeepsEnv(t, env[i].key) && env[i].value.Str?
    ensures CleanEnv(t, env) == env
  {
    if env != [] {
      CleanEnvFixes(t, env[..|env| - 1]);
    }
  }

  /** An entry is kept, as text, exactly when its name begins with the prefix and does not
      look secret. */
  lemma {:induction false} EntryAfterClean(t: Tools, env: seq<Field>, key: string)
    ensures FieldNamed(CleanEnv(t, env), key) ==
            if !LooksSecret(t, key) && "RUNSPECIMEN_" <= key && FieldNamed(env, key).Some?
            then Some(if FieldNamed(env, key).value.Str? then FieldNamed(env, key).value else Str(t.show(FieldNamed(env, key).value)))
            else None
    decreases env
  {
    if env != [] {
      var before, last := env[..|env| - 1], env[|env| - 1];
      EntryAfterClean(t, before, key);
      var cleaned := CleanEnv(t, env);
      if KeepsEnv(t, last.key) {
        assert cleaned[..|cleaned| - 1] == CleanEnv(t, before);
      } else {
        assert cleaned == CleanEnv(t, before);
      }
    }
  }

  // Bundles

  /** `excluded` is the recorded list of excluded names; `rest` holds every other
      top-level field. */
  datatype Bundle = Bundle(kind: string, version: int, settings: Json, env: Json, excluded: seq<string>, rest: seq<Field>,
                           digest: Option<string>)

  function Fields(v: Json): seq<Field>
  {
    if v.Object? then v.fields else []
  }

  predicate Supported(b: Bundle)
  {
    b.kind == "config_bundle" && b.version == 1
  }

  predicate DigestHolds(t: Tools, b: Bundle)
  {
    b.digest.Some? && t.lower(b.digest.value) == t.digestOf(b.(digest := None))
  }

  function NamesIn(list: seq<string>): set<string>
  {
    set n | n in list :: n
  }

  /** Digests are lower-case hexadecimal, and sorting lists what it sorts. */
  ghost predicate SoundTools(t: Tools)
  {
    && (forall b :: t.lower(t.digestOf(b)) == t.digestOf(b))
    && (forall names :: NamesIn(t.sorted(names)) == names)
  }

  predicate Sanitizable(t: Tools, b: Bundle)
  {
    Supported(b) && Cleanable(t, Object(Fields(b.settings))) && EnvCleanable(t, Fields(b.env))
  }

  ghost function Sanitized(t: Tools, b: Bundle): Bundle
  {
    var settings := Object(Fields(b.settings));
    var names := NamesIn(Excluded(t, settings, "")) + SecretNames(t, Fields(b.env)) + NamesIn(b.excluded);
    var body := Bundle(b.kind, b.version, Clean(t, settings), Object(CleanEnv(t, Fields(b.env))), t.sorted(names), b.rest, None);
    body.(digest := Some(t.digestOf(body)))
  }

  method SanitizeBundle(t: Tools, b: Bundle) returns (c: Option<Bundle>)
    ensures c == if Sanitizable(t, b) then Some(Sanitized(t, b)) else None
  {
    if !Supported(b) {
      return None;
    }
    var sanitizer := new Sanitizer(t);
    var settings := sanitizer.SanitizeSettings(Object(Fields(b.settings)), "");
    if settings.None? {
      return None;
    }
    var ok, env, secrets := SanitizeEnv(t, Fields(b.env));
    if !ok {
      return None;
    }
    assert sanitizer.excluded == Excluded(t, Object(Fields(b.settings)), "");
    var names := NamesIn(sanitizer.excluded) + secrets + NamesIn(b.excluded);
    var body := Bundle(b.kind, b.version, settings.value, Object(env), t.sorted(names), b.rest, None);
    return Some(body.(digest := Some(t.digestOf(body))));
  }

  /** A sanitized bundle sanitizes to itself and carries its own digest. */
  ghost predicate Settled(t: Tools, b: Bundle)
  {
    Sanitizable(t, b) && Sanitized(t, b) == b && DigestHolds(t, b)
  }

  lemma SanitizedIsSettled(t: Tools, b: Bundle)
    requires SoundTools(t) && Sanitizable(t, b)
    ensures Settled(t, Sanitized(t, b))
  {
    var c := Sanitized(t, b);
    var settings := Object(Fields(b.settings));
    CleanIsIdempotent(t, settings, "");
    CleanKeepsCleanable(t, settings);
    CleanEnvShape(t, Fields(b.env));
    CleanEnvFixes(t, CleanEnv(t, Fields(b.env)));
    assert Object(Fields(c.settings)) == Clean(t, settings);
    assert SecretNames(t, Fields(c.env)) == {};
    assert c.(digest := None).(digest := Some(t.digestOf(c.(digest := None)))) == c;
    var names := NamesIn(Excluded(t, settings, "")) + SecretNames(t, Fields(b.env)) + NamesIn(b.excluded);
    assert c.excluded == t.sorted(names) && NamesIn(c.excluded) == names;
    NothingToAdd(names);
    assert Sanitized(t, c).excluded == c.excluded;
  }

  lemma NothingToAdd(names: set<string>)
    ensures NamesIn([]) + {} + names == names
  {
  }

  /** What a reader sees in a file that sanitizing leaves as it is. */
  predicate AlreadySanitized(t: Tools, b: Bundle)
  {
    && Supported(b)
    && b.settings.Object? && NoSecret(t, b.settings) && Cleanable(t, b.settings)
    && b.env.Object? && (forall i :: 0 <= i < |b.env.fields| ==> KeepsEnv(t, b.env.fields[i].key) && b.env.fields[i].value.Str?)
    && b.excluded == t.sorted(NamesIn(b.excluded))
    && b.digest == Some(t.digestOf(b.(digest := None)))
  }

  /** Those are exactly the bundles that sanitize to themselves. */
  lemma SettledExactly(t: Tools, b: Bundle)
    requires SoundTools(t)
    ensures Settled(t, b) <==> AlreadySanitized(t, b)
  {
    var settings := Object(Fields(b.settings));
    if AlreadySanitized(t, b) {
      CleanFixes(t, settings);
      NothingExcluded(t, settings, "");
      CleanEnvFixes(t, b.env.fields);
      assert SecretNames(t, b.env.fields) == {};
      NothingToAdd(NamesIn(b.excluded));
      assert b.(digest := None).(digest := b.digest) == b;
    }
    if Settled(t, b) {
      CleanHasNoSecret(t, settings);
      CleanEnvShape(t, Fields(b.env));
      CleanKeepsCleanable(t, settings);
      NothingExcluded(t, settings, "");
      assert b.settings == Clean(t, settings) && b.settings == settings;
      assert b.env == Object(CleanEnv(t, Fields(b.env)));
      assert SecretNames(t, b.env.fields) == {};
      NothingToAdd(NamesIn(b.excluded));
      assert b.(digest := None).(digest := b.digest) == b;
    }
  }

  /** Sanitizing looks into settings and env. It leaves no secret-looking name
      anywhere in a bundle exactly when none was in its other top-level fields. */
  lemma SecretsLeftExactly(t: Tools, b: Bundle)
    requires Sanitizable(t, b)
    ensures var c := Sanitized(t, b);
            NoSecret(t, c.settings) && NoSecret(t, c.env) && NoSecret(t, Object(c.rest)) <==> NoSecret(t, Object(b.rest))
  {
    CleanHasNoSecret(t, Object(Fields(b.settings)));
    CleanEnvShape(t, Fields(b.env));
  }

  /** What sanitizing makes of each part. */
  lemma SanitizedParts(t: Tools, b: Bundle)
    requires SoundTools(t)
    ensures var c := Sanitized(t, b);
            && c.kind == b.kind && c.version == b.version && c.rest == b.rest
            && c.settings == Clean(t, if b.settings.Object? then b.settings else Object([]))
            && c.env == Object(CleanEnv(t, if b.env.Object? then b.env.fields else []))
            && (forall n :: n in c.excluded <==>
                  || n in Excluded(t, if b.settings.Object? then b.settings else Object([]), "")
                  || (b.env.Object? && exists i :: 0 <= i < |b.env.fields| && LooksSecret(t, b.env.fields[i].key) && b.env.fields[i].key == n)
                  || n in b.excluded)
            && c.digest == Some(t.digestOf(c.(digest := None)))
  {
    var c := Sanitized(t, b);
    var settings := Object(Fields(b.settings));
    var names := NamesIn(Excluded(t, settings, "")) + SecretNames(t, Fields(b.env)) + NamesIn(b.excluded);
    assert c.excluded == t.sorted(names) && NamesIn(c.excluded) == names;
    forall n ensures n in c.excluded <==> n in names { assert n in NamesIn(c.excluded) <==> n in c.excluded; }
    assert c.(digest := None).(digest := c.digest) == c;
  }

  /** Which values can be sanitized, by their shape: what is dropped is not looked at. */
  lemma CleanableExactly(t: Tools, v: Json)
    ensures Cleanable(t, v) <==>
            && !v.Foreign?
            && (v.List? ==> forall i :: 0 <= i < |v.items| ==> Cleanable(t, v.items[i]))
            && (v.Object? ==> forall i :: 0 <= i < |v.fields| && !LooksSecret(t, v.fields[i].key) ==> Cleanable(t, v.fields[i].value))
  {
  }

  // The workspace

  datatype Store = Store(active: Option<Bundle>, backups: map<string, Bundle>)

  /** Backups are named by the second: two in one second share a name. */
  ghost function ApplyTo(t: Tools, w: Store, b: Bundle, stamp: string): Option<Store>
  {
    if DigestHolds(t, b) && Sanitizable(t, b) then
      Some(Store(Some(Sanitized(t, b)), if w.active.Some? then w.backups[stamp := w.active.value] else w.backups))
    else None
  }

  ghost function RollbackTo(t: Tools, w: Store, backup: string, stamp: string): Option<Store>
  {
    if backup in w.backups then ApplyTo(t, w, w.backups[backup], stamp) else None
  }

  ghost function ExportOf(t: Tools, w: Store): Option<Bundle>
  {
    if w.active.Some? && DigestHolds(t, w.active.value) && Sanitizable(t, w.active.value)
    then Some(Sanitized(t, w.active.value)) else None
  }

  datatype Action = Apply(bundle: Bundle, stamp: string) | Rollback(backup: string, stamp: string)

  /** A refused action leaves the store as it was. */
  ghost function Act(t: Tools, w: Store, a: Action): Store
  {
    var next := match a case Apply(b, s) => ApplyTo(t, w, b, s) case Rollback(k, s) => RollbackTo(t, w, k, s);
    if next.Some? then next.value else w
  }

  ghost function Acts(t: Tools, w: Store, actions: seq<Action>): Store
    decreases |actions|
  {
    if actions == [] then w else Acts(t, Act(t, w, actions[0]), actions[1..])
  }

  ghost predicate StoreInv(t: Tools, w: Store)
  {
    && (w.active.Some? ==> Settled(t, w.active.value))
    && (forall k :: k in w.backups ==> Settled(t, w.backups[k]))
  }

  lemma {:induction false} ActsKeepInv(t: Tools, w: Store, actions: seq<Action>)
    requires SoundTools(t) && StoreInv(t, w)
    ensures StoreInv(t, Acts(t, w, actions))
    decreases |actions|
  {
    if actions != [] {
      match actions[0] {
        case Apply(b, s) => if Sanitizable(t, b) { SanitizedIsSettled(t, b); }
        case Rollback(k, s) => if k in w.backups && Sanitizable(t, w.backups[k]) { SanitizedIsSettled(t, w.backups[k]); }
      }
      ActsKeepInv(t, Act(t, w, actions[0]), actions[1..]);
    }
  }

  /** An apply is accepted exactly for a version-1 config bundle that carries its own
      digest, in either case, whose settings can be sanitized and whose kept environment
      entries are text or numbers; an export exactly for such an active bundle. */
  lemma ApplyAcceptedExactly(t: Tools, w: Store, b: Bundle, stamp: string)
    ensures ApplyTo(t, w, b, stamp).Some? <==>
            && b.kind == "config_bundle" && b.version == 1
            && b.digest.Some? && t.lower(b.digest.value) == t.digestOf(b.(digest := None))
            && Cleanable(t, if b.settings.Object? then b.settings else Object([]))
            && (b.env.Object? ==> forall i :: 0 <= i < |b.env.fields| && !LooksSecret(t, b.env.fields[i].key) && "RUNSPECIMEN_" <= b.env.fields[i].key ==>
                  b.env.fields[i].value.Str? || b.env.fields[i].value.Int? || b.env.fields[i].value.Float?)
    ensures ExportOf(t, w).Some? <==> w.active.Some? && ApplyTo(t, w, w.active.value, stamp).Some?
  {
  }

  /** The shipped workspace keeps no secret: after any run of applies and rollbacks, no
      name at any depth of the active settings, and no environment name, has one of the
      seven words anywhere in it, lowered. */
  lemma ActiveHasNoSecret(t: Tools, actions: seq<Action>, access: seq<Access>, fields: seq<Field>, f: Field,
                          before: string, part: string, after: string)
    requires SoundTools(t) && t.fragments == SECRET_FRAGMENTS
    requires Acts(t, Store(None, map[]), actions).active.Some?
    requires var b := Acts(t, Store(None, map[]), actions).active.value;
             Get(b.settings, access) == Some(Object(fields)) || b.env == Object(fields)
    requires f in fields
    requires part in ["secret", "password", "token", "api_key", "apikey", "private_key", "credential"]
    ensures t.lower(f.key) != before + part + after
  {
    ActsKeepInv(t, Store(None, map[]), actions);
    var b := Acts(t, Store(None, map[]), actions).active.value;
    SettledExactly(t, b);
    if Get(b.settings, access) == Some(Object(fields)) {
      NoSecretAt(t, b.settings, access);
    }
    assert !LooksSecret(t, f.key);
    LooksSecretExactly(t, f.key);
    FragmentsAre();
  }

  /** And what the shipped list does not name is kept: a name without any of the words. */
  lemma OtherNamesAreKept(t: Tools, v: Json, key: string)
    requires t.fragments == ["secret", "password", "token", "api_key", "apikey", "private_key", "credential"]
    requires forall before, part, after :: part in t.fragments ==> t.lower(key) != before + part + after
    requires v.Object? && FieldNamed(v.fields, key).Some?
    ensures Get(Clean(t, v), [Key(key)]) == Some(Clean(t, FieldNamed(v.fields, key).value))
  {
    LooksSecretExactly(t, key);
    GetAfterClean(t, v, [Key(key)]);
    assert [Key(key)][1..] == [];
    assert Get(v, [Key(key)]) == Get(FieldNamed(v.fields, key).value, []);
  }

  /** Exporting after an apply gives exactly the sanitized input. */
  lemma ExportAfterApply(t: Tools, w: Store, b: Bundle, stamp: string)
    requires SoundTools(t) && ApplyTo(t, w, b, stamp).Some?
    ensures ExportOf(t, ApplyTo(t, w, b, stamp).value) == Some(Sanitized(t, b))
  {
    SanitizedIsSettled(t, b);
  }

  /** From any run of applies and rollbacks, rolling back to the backup just taken
      is accepted and restores the prior active bundle, digest and all. */
  lemma RollbackRestores(t: Tools, actions: seq<Action>, b: Bundle, stamp: string, later: string)
    requires SoundTools(t)
    requires var w := Acts(t, Store(None, map[]), actions);
             w.active.Some? && ApplyTo(t, w, b, stamp).Some?
    ensures var w := Acts(t, Store(None, map[]), actions);
            var back := RollbackTo(t, ApplyTo(t, w, b, stamp).value, stamp, later);
            back.Some? && back.value.active == w.active && DigestHolds(t, w.active.value)
  {
    ActsKeepInv(t, Store(None, map[]), actions);
  }

  /** Whatever the prior active bundle was, a rollback to it is accepted exactly when
      its digest holds and it can be sanitized, and then restores it exactly when a
      reader sees that it already was sanitized, with its digest as bound. */
  lemma RollbackRestoresExactly(t: Tools, w: Store, b: Bundle, stamp: string, later: string)
    requires SoundTools(t)
    requires w.active.Some? && ApplyTo(t, w, b, stamp).Some?
    ensures var back := RollbackTo(t, ApplyTo(t, w, b, stamp).value, stamp, later);
            && (back.Some? <==> DigestHolds(t, w.active.value) && Sanitizable(t, w.active.value))
            && (back.Some? ==> (back.value.active == w.active <==> AlreadySanitized(t, w.active.value)))
  {
    SettledExactly(t, w.active.value);
  }

  // Two concrete bundles

  /** One fragment, no case, one digest for all. */
  function PlainTools(sorted: set<string> -> seq<string>): Tools
  {
    Tools(["token"], s => s, (v: Json) => "", sorted, (b: Bundle) => "d")
  }

  function PlainBundle(settings: Json, rest: seq<Field>): Bundle
  {
    Bundle("config_bundle", 1, settings, Object([]), [], rest, Some("d"))
  }

  lemma TokenLooksSecret(sorted: set<string> -> seq<string>)
    ensures LooksSecret(PlainTools(sorted), "token")
  {
    assert Contains("token", PlainTools(sorted).fragments[0]);
  }

  /** A bundle with a valid digest put in place by hand, with a secret name in its
      settings: the rollback to its backup is accepted and does not bring it back. */
  lemma RollbackChangesUnsanitized(sorted: set<string> -> seq<string>)
    ensures var t := PlainTools(sorted);
            var was, next := PlainBundle(Object([Field("token", Str("x"))]), []), PlainBundle(Object([]), []);
            && DigestHolds(t, was)
            && ApplyTo(t, Store(Some(was), map[]), next, "1").Some?
            && var back := RollbackTo(t, ApplyTo(t, Store(Some(was), map[]), next, "1").value, "1", "2");
               back.Some? && back.value.active != Some(was)
  {
    TokenLooksSecret(sorted);
    var t, settings := PlainTools(sorted), [Field("token", Str("x"))];
    assert settings[..0] == [] && settings[0] == Field("token", Str("x"));
    assert CleanFields(t, settings) == CleanFields(t, settings[..0]);
    assert Sanitized(t, PlainBundle(Object(settings), [])).settings == Object([]);
  }

  /** A secret name at the top level of a bundle is applied and kept. */
  lemma TopLevelSecretSurvives(sorted: set<string> -> seq<string>)
    ensures var t := PlainTools(sorted);
            var b := PlainBundle(Object([]), [Field("token", Str("x"))]);
            && ApplyTo(t, Store(None, map[]), b, "1").Some?
            && var active := ApplyTo(t, Store(None, map[]), b, "1").value.active.value;
               Field("token", Str("x")) in active.rest && LooksSecret(t, "token") && !NoSecret(t, Object(active.rest))
  {
    TokenLooksSecret(sorted);
    var rest := [Field("token", Str("x"))];
    assert rest[0].key == "token";
  }

  /** The workspace as an object: the active file and the backup directory. */
  class Workspace {
    const tools: Tools
    var active: Option<Bundle>
    var backups: map<string, Bundle>

    ghost function View(): Store
      reads this
    {
      Store(active, backups)
    }

    constructor (lower: string -> string, show: Json -> string, sorted: set<string> -> seq<string>, digestOf: Bundle -> string)
      ensures tools == Tools(SECRET_FRAGMENTS, lower, show, sorted, digestOf) && View() == Store(None, map[])
    {
      tools := Tools(SECRET_FRAGMENTS, lower, show, sorted, digestOf);
      active, backups := None, map[];
    }

    method ApplyBundle(b: Bundle, stamp: string) returns (ok: bool)
      modifies this
      ensures View() == Act(tools, old(View()), Apply(b, stamp))
      ensures ok == ApplyTo(tools, old(View()), b, stamp).Some?
    {
      if !Supported(b) || !DigestHolds(tools, b) { return false; }
      var cleaned := SanitizeBundle(tools, b);
      if cleaned.None? { return false; }
      if active.Some? {
        backups := backups[stamp := active.value];
      }
      active := cleaned;
      return true;
    }

    method RollbackBundle(backup: string, stamp: string) returns (ok: bool)
      modifies this
      ensures View() == Act(tools, old(View()), Rollback(backup, stamp))
      ensures ok == RollbackTo(tools, old(View()), backup, stamp).Some?
    {
      if backup !in backups { return false; }
      ok := ApplyBundle(backups[backup], stamp);
    }

    method ExportBundle() returns (out: Option<Bundle>)
      ensures out == ExportOf(tools, View())
    {
      if active.None? || !DigestHolds(tools, active.value) { return None; }
      out := SanitizeBundle(tools, active.value);
    }
  }
}
