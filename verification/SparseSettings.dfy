/** Settings are written without what the defaults already say (`serverSettings.ts`): a tree is
    stripped against the tree of defaults, and read back by laying it over them. */
module SparseSettings {
  /** A JSON tree as a program holds it, where a field can also be present and undefined. */
  datatype Json =
    | Undefined
    | Null
    | Bool(truth: bool)
    | Number(digits: int)
    | Text(text: string)
    | Array(items: seq<Json>)
    | Object(fields: map<string, Json>)

  /** Values under these keys are compared and kept as wholes. */
  const ATOMIC_SETTINGS_KEYS := {
    "backgroundActivity", "automaticGitFetchInterval", "providerHealthRefreshInterval",
    "sourceControlWriterModelSelection", "textGenerationModelSelection"
  }

  function FieldOr(tree: map<string, Json>, key: string): Json {
    if key in tree then tree[key] else Undefined
  }

  // ----- Writing -----

  /** What is written of a tree; undefined if nothing is. */
  function Stripped(current: Json, defaults: Json): Json
    decreases current, 1
  {
    if current.Array? || defaults.Array? then
      if current == defaults then Undefined else current
    else if current.Object? && defaults.Object? then
      var next := StrippedFields(current, defaults);
      if next != map[] then Object(next) else Undefined
    else
      if current == defaults then Undefined else current
  }

  function StrippedFields(current: Json, defaults: Json): map<string, Json>
    requires current.Object? && defaults.Object?
    decreases current, 0
  {
    map key | key in current.fields && KeepsField(key, current.fields[key], FieldOr(defaults.fields, key)) ::
      StrippedField(key, current.fields[key], FieldOr(defaults.fields, key))
  }

  predicate KeepsField(key: string, current: Json, defaults: Json)
    decreases current, 2
  {
    if key in ATOMIC_SETTINGS_KEYS then current != defaults else Stripped(current, defaults) != Undefined
  }

  function StrippedField(key: string, current: Json, defaults: Json): Json
    decreases current, 2
  {
    if key in ATOMIC_SETTINGS_KEYS then current else Stripped(current, defaults)
  }

  /** What JSON text holds of a tree: an undefined field is not written, an undefined item is null. */
  function Written(tree: Json): Json {
    match tree
    case Array(items) => Array(seq(|items|, i requires 0 <= i < |items| => if items[i] == Undefined then Null else Written(items[i])))
    case Object(fields) => Object(map key | key in fields && fields[key] != Undefined :: Written(fields[key]))
    case _ => tree
  }

  /** The document that is written: an object even when nothing differs. */
  function Document(current: Json, defaults: Json): Json {
    Written(if Stripped(current, defaults) == Undefined then Object(map[]) else Stripped(current, defaults))
  }

  method StripDefaults(current: Json, defaults: Json) returns (stripped: Json)
    ensures stripped == Stripped(current, defaults)
    decreases current
  {
    if current.Array? || defaults.Array? {
      return if current == defaults then Undefined else current;
    }
    if current.Object? && defaults.Object? {
      var next: map<string, Json> := map[];
      var remaining := current.fields.Keys;
      while remaining != {}
        invariant remaining <= current.fields.Keys
        invariant next == map key | key in StrippedFields(current, defaults) && key !in remaining :: StrippedFields(current, defaults)[key]
      {
        var key :| key in remaining;
        remaining := remaining - {key};
        var default := FieldOr(defaults.fields, key);
        if key in ATOMIC_SETTINGS_KEYS {
          if current.fields[key] != default {
            next := next[key := current.fields[key]];
          }
        } else {
          var field := StripDefaults(current.fields[key], default);
          if field != Undefined {
            next := next[key := field];
          }
        }
      }
      assert next == StrippedFields(current, defaults);
      return if next != map[] then Object(next) else Undefined;
    }
    return if current == defaults then Undefined else current;
  }

  // ----- Reading -----

  /** The tree a document stands for: its own fields, the defaults where it has none. */
  function Overlaid(defaults: Json, document: Json): Json
    decreases document, 0
  {
    if document == Undefined then defaults
    else if defaults.Object? && document.Object? then
      Object(map key | key in defaults.fields.Keys + document.fields.Keys ::
               if key !in document.fields then defaults.fields[key]
               else OverlaidField(key, FieldOr(defaults.fields, key), document.fields[key]))
    else document
  }

  function OverlaidField(key: string, defaults: Json, document: Json): Json
    decreases document, 1
  {
    if document == Undefined then defaults
    else if key in ATOMIC_SETTINGS_KEYS then document
    else Overlaid(defaults, document)
  }

  // ----- What survives -----

  /** Nothing in the tree is undefined, at any depth. */
  predicate IsPlain(tree: Json) {
    match tree
    case Undefined => false
    case Array(items) => forall item <- items :: IsPlain(item)
    case Object(fields) => forall key <- fields :: IsPlain(fields[key])
    case _ => true
  }

  /** The tree has every default's key, and nothing undefined in it except where it equals the default. */
  predicate Lossless(current: Json, defaults: Json)
    decreases current, 0
  {
    || current == defaults
    || if current.Object? && defaults.Object? then
         && defaults.fields.Keys <= current.fields.Keys
         && forall key <- current.fields ::
              if key !in defaults.fields then IsPlain(current.fields[key])
              else LosslessField(key, current.fields[key], defaults.fields[key])
       else IsPlain(current)
  }

  predicate LosslessField(key: string, current: Json, defaults: Json)
    decreases current, 1
  {
    if key in ATOMIC_SETTINGS_KEYS then current == defaults || IsPlain(current) else Lossless(current, defaults)
  }

  /** Text holds a tree as it is exactly when nothing in it is undefined. */
  lemma {:induction false} WrittenIsSameExactly(tree: Json)
    ensures Written(tree) == tree && tree != Undefined <==> IsPlain(tree)
    ensures tree != Undefined ==> Written(tree) != Undefined
  {
    match tree
    case Array(items) =>
      forall i | 0 <= i < |items|
        ensures Written(items[i]) == items[i] && items[i] != Undefined <==> IsPlain(items[i])
        ensures items[i] != Undefined ==> Written(items[i]) != Undefined
      {
        WrittenIsSameExactly(items[i]);
      }
      WrittenItems(items);
    case Object(fields) =>
      forall key <- fields
        ensures Written(fields[key]) == fields[key] && fields[key] != Undefined <==> IsPlain(fields[key])
      {
        WrittenIsSameExactly(fields[key]);
      }
      WrittenFields(fields);
    case _ =>
  }

  lemma WrittenItems(items: seq<Json>)
    requires forall i :: 0 <= i < |items| ==> (Written(items[i]) == items[i] && items[i] != Undefined <==> IsPlain(items[i]))
    ensures Written(Array(items)) == Array(items) <==> forall item <- items :: IsPlain(item)
  {
    var written := Written(Array(items)).items;
    if written == items {
      forall item <- items
        ensures IsPlain(item)
      {
        var i :| 0 <= i < |items| && items[i] == item;
        assert written[i] == items[i];
      }
    }
    if forall item <- items :: IsPlain(item) {
      assert written == items;
    }
  }

  lemma WrittenFields(fields: map<string, Json>)
    requires forall key <- fields :: Written(fields[key]) == fields[key] && fields[key] != Undefined <==> IsPlain(fields[key])
    ensures Written(Object(fields)) == Object(fields) <==> forall key <- fields :: IsPlain(fields[key])
  {
    var written := Written(Object(fields)).fields;
    if written == fields {
      forall key <- fields
        ensures IsPlain(fields[key])
      {
        assert key in written && written[key] == fields[key];
      }
    }
    if forall key <- fields :: IsPlain(fields[key]) {
      assert written == fields;
    }
  }

  /** What a reader finds for one field: the stripped value if it was kept. */
  function FieldInDocument(key: string, current: Json, defaults: Json): Json {
    if KeepsField(key, current, defaults) then Written(StrippedField(key, current, defaults)) else Undefined
  }

  /** A field without a default is written whole, unless it is undefined. */
  lemma FieldWithoutDefault(key: string, current: Json)
    ensures FieldInDocument(key, current, Undefined) == Written(current)
    ensures OverlaidField(key, Undefined, Written(current)) == Written(current)
    ensures Written(current) == current && current != Undefined <==> IsPlain(current)
  {
    assert Stripped(current, Undefined) == current;
    WrittenIsSameExactly(current);
  }

  lemma {:induction false} FieldSurvivesExactly(key: string, current: Json, defaults: Json)
    ensures OverlaidField(key, defaults, FieldInDocument(key, current, defaults)) == current <==> LosslessField(key, current, defaults)
    decreases current, 2
  {
    if key in ATOMIC_SETTINGS_KEYS {
      WrittenIsSameExactly(current);
    } else {
      OverlayUndoesStripExactly(current, defaults);
    }
  }

  lemma OverlaidFields(defaults: Json, document: Json)
    requires defaults.Object? && document.Object?
    ensures Overlaid(defaults, document).Object?
    ensures forall key :: key in Overlaid(defaults, document).fields <==> key in defaults.fields || key in document.fields
    ensures forall key <- Overlaid(defaults, document).fields ::
      Overlaid(defaults, document).fields[key] == OverlaidField(key, FieldOr(defaults.fields, key), FieldOr(document.fields, key))
  {
  }

  lemma EmptyDocumentIsDefaults(defaults: Json)
    requires defaults.Object?
    ensures Overlaid(defaults, Object(map[])) == defaults && Written(Object(map[])) == Object(map[])
  {
    assert Overlaid(defaults, Object(map[])).fields == defaults.fields;
  }

  /** One key of two objects: the tree read back agrees with the current one there. */
  predicate AgreesAt(current: Json, defaults: Json, key: string)
    requires current.Object? && defaults.Object?
  {
    var read := Overlaid(defaults, Written(Object(StrippedFields(current, defaults))));
    && read.Object?
    && (key in read.fields <==> key in current.fields)
    && (key in current.fields ==> read.fields[key] == current.fields[key])
  }

  predicate LosslessAt(current: Json, defaults: Json, key: string)
    requires current.Object? && defaults.Object?
  {
    if key !in current.fields then key !in defaults.fields
    else if key !in defaults.fields then IsPlain(current.fields[key])
    else LosslessField(key, current.fields[key], defaults.fields[key])
  }

  lemma {:induction false} KeySurvivesExactly(current: Json, defaults: Json, key: string)
    requires current.Object? && defaults.Object?
    ensures AgreesAt(current, defaults, key) <==> LosslessAt(current, defaults, key)
    decreases current, 0
  {
    var document := Written(Object(StrippedFields(current, defaults)));
    OverlaidFields(defaults, document);
    if key in current.fields {
      var value, default := current.fields[key], FieldOr(defaults.fields, key);
      WrittenIsSameExactly(StrippedField(key, value, default));
      assert key in document.fields <==> FieldInDocument(key, value, default) != Undefined;
      assert FieldOr(document.fields, key) == FieldInDocument(key, value, default);
      if key in defaults.fields {
        FieldSurvivesExactly(key, value, default);
      } else {
        FieldWithoutDefault(key, value);
      }
    }
  }

  /** Laying the text of a stripped tree over the defaults gives the original back exactly when every
      default's key was there and nothing undefined, at any depth, had to be written. */
  lemma {:induction false} OverlayUndoesStripExactly(current: Json, defaults: Json)
    ensures Overlaid(defaults, Written(Stripped(current, defaults))) == current <==> Lossless(current, defaults)
    decreases current, 1
  {
    if current.Object? && defaults.Object? {
      var document := Written(Object(StrippedFields(current, defaults)));
      var read := Overlaid(defaults, document);
      EmptyDocumentIsDefaults(defaults);
      assert Overlaid(defaults, Written(Stripped(current, defaults))) == read;
      OverlaidFields(defaults, document);
      forall key: string
        ensures AgreesAt(current, defaults, key) <==> LosslessAt(current, defaults, key)
      {
        KeySurvivesExactly(current, defaults, key);
      }
      if forall key: string :: AgreesAt(current, defaults, key) {
        forall key: string
          ensures key in read.fields <==> key in current.fields
          ensures key in current.fields ==> key in read.fields && read.fields[key] == current.fields[key]
        {
          assert AgreesAt(current, defaults, key);
        }
        assert read.fields == current.fields;
      }
      LosslessKeyByKey(current, defaults);
    } else {
      WrittenIsSameExactly(current);
    }
  }

  lemma LosslessKeyByKey(current: Json, defaults: Json)
    requires current.Object? && defaults.Object?
    ensures Lossless(current, defaults) <==> forall key: string :: LosslessAt(current, defaults, key)
  {
    if Lossless(current, defaults) {
      forall key: string
        ensures LosslessAt(current, defaults, key)
      {
        if key in current.fields && key in defaults.fields && current == defaults {
          assert Lossless(current.fields[key], defaults.fields[key]);
        }
      }
    }
    if forall key: string :: LosslessAt(current, defaults, key) {
      forall key <- defaults.fields
        ensures key in current.fields
      {
        assert LosslessAt(current, defaults, key);
      }
      forall key <- current.fields
        ensures if key !in defaults.fields then IsPlain(current.fields[key])
                else LosslessField(key, current.fields[key], defaults.fields[key])
      {
        assert LosslessAt(current, defaults, key);
      }
    }
  }

  /** The same for the document on disk, an empty object when nothing differs. */
  lemma SettingsSurviveExactly(current: Json, defaults: Json)
    requires current.Object? && defaults.Object?
    ensures Overlaid(defaults, Document(current, defaults)) == current <==> Lossless(current, defaults)
  {
    OverlayUndoesStripExactly(current, defaults);
    EmptyDocumentIsDefaults(defaults);
  }

  // ----- What a document says, field by field -----

  function FieldsOf(tree: Json): map<string, Json> {
    if tree.Object? then tree.fields else map[]
  }

  /** The value under a path of keys; undefined where there is none. */
  function FieldAt(tree: Json, path: seq<string>): Json
    decreases |path|
  {
    if path == [] then tree else FieldAt(FieldOr(FieldsOf(tree), path[0]), path[1..])
  }

  /** The path goes through no value that is kept as a whole; it may end at one. */
  predicate AvoidsAtomic(path: seq<string>) {
    forall i :: 0 <= i < |path| - 1 ==> path[i] !in ATOMIC_SETTINGS_KEYS
  }

  /** What stands there is compared as a whole: it is atomic, or it is not an object over an object. */
  predicate ComparedWhole(path: seq<string>, current: Json, defaults: Json) {
    (path != [] && path[|path| - 1] in ATOMIC_SETTINGS_KEYS) || !(current.Object? && defaults.Object?)
  }

  lemma {:induction false} StripsItself(tree: Json)
    ensures Stripped(tree, tree) == Undefined
  {
    if tree.Object? {
      forall key <- tree.fields
        ensures !KeepsField(key, tree.fields[key], FieldOr(tree.fields, key))
      {
        StripsItself(tree.fields[key]);
      }
      assert StrippedFields(tree, tree) == map[];
    }
  }

  lemma {:induction false} NothingUnderUndefined(path: seq<string>)
    ensures FieldAt(Undefined, path) == Undefined
  {
    if path != [] {
      NothingUnderUndefined(path[1..]);
    }
  }

  lemma NothingUnderOther(tree: Json, path: seq<string>)
    requires !tree.Object? && path != []
    ensures FieldAt(tree, path) == Undefined
  {
    NothingUnderUndefined(path[1..]);
  }

  lemma {:induction false} WrittenFieldAt(tree: Json, path: seq<string>)
    ensures FieldAt(Written(tree), path) == Written(FieldAt(tree, path))
  {
    if path != [] {
      if tree.Object? && path[0] in tree.fields {
        WrittenIsSameExactly(tree.fields[path[0]]);
        WrittenFieldAt(tree.fields[path[0]], path[1..]);
      } else {
        NothingUnderUndefined(path[1..]);
      }
    }
  }

  /** One step down two objects. */
  lemma WrittenStep(current: Json, defaults: Json, key: string)
    requires current.Object? && defaults.Object?
    ensures FieldOr(FieldsOf(Written(Stripped(current, defaults))), key)
         == if key in current.fields then FieldInDocument(key, current.fields[key], FieldOr(defaults.fields, key)) else Undefined
  {
    if key in current.fields {
      WrittenIsSameExactly(StrippedField(key, current.fields[key], FieldOr(defaults.fields, key)));
      assert key in StrippedFields(current, defaults) <==> KeepsField(key, current.fields[key], FieldOr(defaults.fields, key));
    }
  }

  predicate HoldsUndefinedAtomic(tree: Json) {
    tree.Object? && exists key <- tree.fields :: key in ATOMIC_SETTINGS_KEYS && tree.fields[key] == Undefined
  }

  lemma StripsToContent(current: Json, defaults: Json)
    requires current.Object? && defaults.Object? && Stripped(current, defaults) != Undefined
    ensures Written(Stripped(current, defaults)).Object?
    ensures Written(Stripped(current, defaults)).fields != map[] || HoldsUndefinedAtomic(current)
  {
    var key :| key in StrippedFields(current, defaults);
    WrittenStep(current, defaults, key);
    WrittenIsSameExactly(StrippedFields(current, defaults)[key]);
  }

  lemma {:induction false} StrippedSaysExactly(current: Json, defaults: Json, path: seq<string>)
    requires AvoidsAtomic(path)
    ensures var value, default, written := FieldAt(current, path), FieldAt(defaults, path), FieldAt(Written(Stripped(current, defaults)), path);
      && (value == default ==> written == Undefined)
      && (value != default && ComparedWhole(path, value, default) ==> written == Written(value))
      && (value != default && !ComparedWhole(path, value, default) ==>
            written == Undefined || (written.Object? && (written.fields != map[] || HoldsUndefinedAtomic(value))))
    decreases |path|
  {
    if path == [] {
      StripsItself(current);
      if current.Object? && defaults.Object? && Stripped(current, defaults) != Undefined {
        StripsToContent(current, defaults);
      }
    } else if !current.Object? || !defaults.Object? {
      WrittenFieldAt(current, path);
      NothingUnderUndefined(path);
      if current.Object? {
        NothingUnderOther(defaults, path);
      } else {
        NothingUnderOther(current, path);
      }
    } else {
      WrittenStep(current, defaults, path[0]);
      if path[0] !in current.fields {
        NothingUnderUndefined(path[1..]);
      } else if path[0] in ATOMIC_SETTINGS_KEYS {
        assert path[1..] == [];
      } else {
        assert path[1..] != [] ==> path[1..][|path[1..]| - 1] == path[|path| - 1];
        StrippedSaysExactly(current.fields[path[0]], FieldOr(defaults.fields, path[0]), path[1..]);
      }
    }
  }

  /** The document says of every field exactly what the defaults do not: under any path of keys that goes
      through no atomic value, nothing is written where the defaults have the same, the value itself where
      they have another, and for two objects no more than the longer paths give it: an empty object is never
      written for them, but for the sake of an atomic field that is undefined. */
  lemma DocumentSaysExactly(current: Json, defaults: Json, path: seq<string>)
    requires path != [] && AvoidsAtomic(path)
    ensures var value, default, written := FieldAt(current, path), FieldAt(defaults, path), FieldAt(Document(current, defaults), path);
      && (value == default ==> written == Undefined)
      && (value != default && ComparedWhole(path, value, default) ==> written == Written(value))
      && (value != default && !ComparedWhole(path, value, default) ==>
            written == Undefined || (written.Object? && (written.fields != map[] || HoldsUndefinedAtomic(value))))
  {
    StrippedSaysExactly(current, defaults, path);
    NothingUnderUndefined(path);
    WrittenFieldAt(Object(map[]), path);
    NothingUnderUndefined(path[1..]);
  }

  /** So settings that are the defaults write an empty document. */
  lemma DefaultsWriteNothing(defaults: Json)
    ensures Document(defaults, defaults) == Object(map[])
  {
    StripsItself(defaults);
    assert Written(Object(map[])).fields == map[];
  }

  /** Stripping what was read back from a document writes the same document again. */
  lemma RewritingChangesNothing(current: Json, defaults: Json)
    requires current.Object? && defaults.Object? && Lossless(current, defaults)
    ensures Document(Overlaid(defaults, Document(current, defaults)), defaults) == Document(current, defaults)
  {
    SettingsSurviveExactly(current, defaults);
  }

  /** A field whose default is undefined is always written, whatever its value: this keeps both states
      of an opt-in that the built-in defaults could not bring back. */
  lemma UndefinedDefaultIsAlwaysWritten(current: Json, defaults: Json, key: string)
    requires current.Object? && defaults.Object? && key in current.fields && current.fields[key] != Undefined
    requires FieldOr(defaults.fields, key) == Undefined
    ensures key in Document(current, defaults).fields && Document(current, defaults).fields[key] == Written(current.fields[key])
  {
    FieldWithoutDefault(key, current.fields[key]);
    assert key in StrippedFields(current, defaults);
  }

  /** Without the condition a value is lost: an object that lacks one of the default's keys gets it
      back, and an undefined field is replaced by its default. */
  lemma MissingKeyComesBack()
    ensures var current, defaults := Object(map[]), Object(map["label" := Text("x")]);
      Overlaid(defaults, Document(current, defaults)) == defaults != current
    ensures var current, defaults := Object(map["label" := Undefined]), Object(map["label" := Text("x")]);
      Overlaid(defaults, Document(current, defaults)) == defaults != current
  {
    var defaults := Object(map["label" := Text("x")]);
    assert "label" in defaults.fields && defaults.fields["label"] == Text("x");
    EmptyDocumentIsDefaults(defaults);
    assert StrippedFields(Object(map[]), defaults) == map[];
    assert StrippedFields(Object(map["label" := Undefined]), defaults) == map[];
  }

  /** And so is an undefined field deep inside a part that is written whole. */
  lemma NestedUndefinedIsLost()
    ensures var part := Object(map["a" := Undefined, "b" := Null]);
      var current, defaults := Object(map["x" := part]), Object(map[]);
      Overlaid(defaults, Document(current, defaults)) != current
  {
    var part := Object(map["a" := Undefined, "b" := Null]);
    var current, defaults := Object(map["x" := part]), Object(map[]);
    assert part.fields["a"] == Undefined && !IsPlain(part);
    assert "x" in current.fields && current.fields["x"] == part && "x" !in defaults.fields;
    SettingsSurviveExactly(current, defaults);
  }
}
