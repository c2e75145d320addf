/**
 * The schema walk, packages/config/src/loader.ts:64-130 and 207-222: every field is
 * looked up in the merged tree, validated, transformed and stored under its path.
 */
module ConfigSchema {
  import opened Common
  import opened Text
  import opened ConfigTree
  import opened ConfigProvenance

  /** `check` is validation followed by the transform; its failure is `None`. */
  datatype Field = Field(check: Value -> Option<Value>, default: Option<Value>, required: bool, secret: bool)

  datatype Entry = Single(field: Field) | Group(shape: Shape)

  /** The entries of a schema object, in order. */
  datatype Shape = End | Item(key: string, entry: Entry, rest: Shape)

  datatype Metadata = Metadata(path: string, present: bool, defaulted: bool, source: Option<SourceRef>)

  datatype Problem = Invalid | BadDefault | Missing

  datatype Issue = Issue(path: string, source: Option<SourceRef>, problem: Problem)

  datatype Report = Report(values: Fields, metadata: seq<Metadata>, issues: seq<Issue>, secretPaths: set<string>)

  const EMPTY := Report(map[], [], [], {})

  /** `setPath`: whatever is not an object on the way is replaced by one. */
  function SetAt(root: Fields, path: seq<string>, x: Value): Fields
    requires |path| > 0
    decreases |path|
  {
    root[path[0] := if |path| == 1 then x else Node(SetAt(ChildFields(root, path[0]), path[1..], x))]
  }

  class WalkContext {
    const merged: Fields
    const provenance: map<string, SourceRef>
    var values: Fields
    var metadata: seq<Metadata>
    var issues: seq<Issue>
    var secretPaths: set<string>

    constructor (merged: Fields, provenance: map<string, SourceRef>)
      ensures this.merged == merged && this.provenance == provenance && Done() == EMPTY
    {
      this.merged, this.provenance := merged, provenance;
      values, metadata, issues, secretPaths := map[], [], [], {};
    }

    function Done(): Report
      reads this
    {
      Report(values, metadata, issues, secretPaths)
    }

    method ResolveField(field: Field, path: string)
      modifies this
      ensures Done() == Resolved(merged, provenance, old(Done()), field, path)
    {
      if field.secret {
        secretPaths := secretPaths + {path};
      }
      var raw := Navigate(Node(merged), Split(path, '.'));
      var source := Source(provenance, path);
      if raw.Some? {
        var outcome := field.check(raw.value);
        if outcome.Some? {
          values := SetAt(values, Split(path, '.'), outcome.value);
          metadata := metadata + [Metadata(path, true, false, source)];
        } else {
          issues := issues + [Issue(path, source, Invalid)];
        }
        return;
      }
      if field.default.Some? {
        var outcome := field.check(field.default.value);
        if outcome.Some? {
          values := SetAt(values, Split(path, '.'), outcome.value);
          metadata := metadata + [Metadata(path, false, true, None)];
        } else {
          issues := issues + [Issue(path, None, BadDefault)];
        }
      } else if field.required {
        issues := issues + [Issue(path, None, Missing)];
      } else {
        metadata := metadata + [Metadata(path, false, false, None)];
      }
    }

    method Walk(shape: Shape, prefix: string)
      modifies this
      ensures Done() == Walked(merged, provenance, old(Done()), shape, prefix)
      decreases shape
    {
      var entries := shape;
      while entries.Item?
        invariant Walked(merged, provenance, Done(), entries, prefix) ==
                  Walked(merged, provenance, old(Done()), shape, prefix)
        invariant entries == shape || entries < shape
        decreases entries
      {
        var path := Dot(prefix, entries.key);
        match entries.entry {
          case Single(field) => ResolveField(field, path);
          case Group(inner) => Walk(inner, path);
        }
        entries := entries.rest;
      }
    }
  }

  /** What one field makes of what the merged tree holds at its path. */
  function Outcome(field: Field, raw: Option<Value>): Option<Value> {
    if raw.Some? then field.check(raw.value)
    else if field.default.Some? then field.check(field.default.value)
    else None
  }

  predicate Wanted(field: Field, raw: Option<Value>) {
    raw.Some? || field.default.Some? || field.required
  }

  /** Nothing wrong: there is a valid value, or none is needed. */
  predicate Fine(field: Field, raw: Option<Value>) {
    Wanted(field, raw) ==> Outcome(field, raw).Some?
  }

  function Resolved(merged: Fields, provenance: map<string, SourceRef>, r: Report, field: Field, path: string): Report {
    var raw := Navigate(Node(merged), Split(path, '.'));
    var source := if raw.Some? then Source(provenance, path) else None;
    var out := Outcome(field, raw);
    var secrets := r.secretPaths + if field.secret then {path} else {};
    if out.Some? then
      Report(SetAt(r.values, Split(path, '.'), out.value),
             r.metadata + [Metadata(path, raw.Some?, raw.None?, source)], r.issues, secrets)
    else if Wanted(field, raw) then
      var problem := if raw.Some? then Invalid else if field.default.Some? then BadDefault else Missing;
      Report(r.values, r.metadata, r.issues + [Issue(path, source, problem)], secrets)
    else
      Report(r.values, r.metadata + [Metadata(path, false, false, None)], r.issues, secrets)
  }

  function Walked(merged: Fields, provenance: map<string, SourceRef>, r: Report, shape: Shape, prefix: string): Report
    decreases shape
  {
    match shape
    case End => r
    case Item(key, entry, rest) =>
      Walked(merged, provenance, WalkedEntry(merged, provenance, r, entry, Dot(prefix, key)), rest, prefix)
  }

  function WalkedEntry(merged: Fields, provenance: map<string, SourceRef>, r: Report, entry: Entry, path: string): Report
    decreases entry
  {
    match entry
    case Single(field) => Resolved(merged, provenance, r, field, path)
    case Group(inner) => Walked(merged, provenance, r, inner, path)
  }
}
