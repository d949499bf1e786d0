/** Claim data as a credential subject holds it once decoded from JSON. */
module Claims {
  import opened Wrappers

  /** A claim value: a string, an array (Go `[]any`) or an object (Go `map[string]any`).
      Equality of `Json` values is structural, like `reflect.DeepEqual` on decoded JSON. */
  datatype Json = Str(s: string) | List(items: seq<Json>) | Obj(fields: map<string, Json>)

  /** `{"value": value, "lang": lang}`, the shape of every name and role entry. */
  function LangValue(value: string, lang: string): (j: Json)
    ensures j.Obj? && j.fields.Keys == {"value", "lang"}
    ensures j.fields["value"] == Str(value) && j.fields["lang"] == Str(lang)
  {
    Obj(map["value" := Str(value), "lang" := Str(lang)])
  }

  /** Two language-tagged entries are equal exactly when both their value and their language are. */
  lemma LangValueInjective(v1: string, l1: string, v2: string, l2: string)
    ensures LangValue(v1, l1) == LangValue(v2, l2) <==> v1 == v2 && l1 == l2
  {
    if LangValue(v1, l1) == LangValue(v2, l2) {
      assert LangValue(v1, l1).fields["value"] == LangValue(v2, l2).fields["value"];
      assert LangValue(v1, l1).fields["lang"] == LangValue(v2, l2).fields["lang"];
    }
  }

  /** The value reached by following `path` through nested objects, if every step exists. */
  function Get(j: Json, path: seq<string>): Option<Json>
    decreases path
  {
    if path == [] then Some(j)
    else match j
      case Obj(f) => if path[0] in f then Get(f[path[0]], path[1..]) else None
      case _ => None
  }

  /** The top-level keys of a subject whose values are arrays. */
  function ListKeys(subject: map<string, Json>): set<string>
  {
    set k | k in subject && subject[k].List?
  }

  /** The top-level keys of a subject whose values are objects. */
  function ObjectKeys(subject: map<string, Json>): set<string>
  {
    set k | k in subject && subject[k].Obj?
  }
}
