/**
 The sanitiser schema the AI-answer panel of components/ui/QuestionItem.tsx
 hands to its markdown renderer: the library's default schema with `className`
 added to the attributes listed for `code` and `pre`, so that code blocks keep
 their language classes for highlighting. The default schema itself belongs to
 the sanitiser library and is a parameter; `rest` stands for its other keys.
 */
module SanitizeSchema {
  import opened Js

  /** An entry of a tag's attribute list: a bare name, or `[name, ...allowedValues]`. */
  datatype PropertyDefinition = Bare(name: string) | Tuple(name: string, values: seq<string>)

  type AttributeLists = map<string, seq<PropertyDefinition>>

  /** `attributes` may be absent from a schema. */
  datatype Schema<+S> = Schema(attributes: Option<AttributeLists>, rest: S)

  /** `['className']` */
  const ClassName := Tuple("className", [])

  /** `defaultSchema.attributes?.[tag] ?? []` */
  function ListFor<S>(schema: Schema<S>, tag: string): seq<PropertyDefinition>
  {
    if schema.attributes.Some? && tag in schema.attributes.value then schema.attributes.value[tag] else []
  }

  /** `{ ...defaultSchema, attributes: { ...defaultSchema.attributes, code: [...], pre: [...] } }` */
  function WithCodeClasses<S>(base: Schema<S>): (r: Schema<S>)
    ensures r.rest == base.rest && r.attributes.Some?
    ensures ListFor(r, "code") == ListFor(base, "code") + [ClassName]
    ensures ListFor(r, "pre") == ListFor(base, "pre") + [ClassName]
    ensures forall tag :: tag != "code" && tag != "pre" ==> ListFor(r, tag) == ListFor(base, tag)
  {
    var attrs := base.attributes.GetOr(map[]);
    Schema(Some(attrs["code" := ListFor(base, "code") + [ClassName]]["pre" := ListFor(base, "pre") + [ClassName]]), base.rest)
  }

  /** The schema lists attribute `name` for `tag`. */
  predicate Lists<S>(schema: Schema<S>, tag: string, name: string)
  {
    exists d :: d in ListFor(schema, tag) && d.name == name
  }

  /** The merge only adds: the merged schema lists an attribute for a tag exactly when the base
      schema does, or the tag is `code` or `pre` and the attribute is `className`. */
  lemma MergeOnlyAddsClassName<S>(base: Schema<S>, tag: string, name: string)
    ensures Lists(WithCodeClasses(base), tag, name) <==>
      Lists(base, tag, name) || ((tag == "code" || tag == "pre") && name == "className")
  {
    var merged := WithCodeClasses(base);
    if tag == "code" || tag == "pre" {
      assert ClassName in ListFor(merged, tag);
      if Lists(merged, tag, name) {
        var d :| d in ListFor(merged, tag) && d.name == name;
        if d != ClassName {
          assert d in ListFor(base, tag);
        }
      }
      if Lists(base, tag, name) {
        var d :| d in ListFor(base, tag) && d.name == name;
        assert d in ListFor(merged, tag);
      }
    }
  }
}
