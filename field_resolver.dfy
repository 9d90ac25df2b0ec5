/**
 * Field-schema discovery for the worker: fields are indexed by normalised
 * external id and by normalised label, and each semantic role takes the
 * first of its candidate names whose lookup yields a field of type "text".
 */
module FieldResolver {
  import opened Wrappers
  import opened Js

  /** A field of the target app's schema. */
  datatype Field = Field(fieldId: int, ftype: string, externalId: Option<string>, fieldLabel: Option<string>)

  /** `norm(s)`: `(s ?? "")` lower-cased and trimmed (case folding on ASCII letters only). */
  function Norm(s: Option<string>): (r: string)
    ensures s == None ==> r == ""
    ensures r == [] || (!IsSpace(r[0]) && !IsSpace(r[|r| - 1]))
    ensures forall c :: c in r ==> !('A' <= c <= 'Z')
  {
    var lowered := ToLower(if s.Some? then s.value else "");
    assert forall c :: c in lowered ==> !('A' <= c <= 'Z');
    TrimChars(lowered);
    Trim(lowered)
  }

  /** The key is the lower-cased name from its first to its last non-whitespace character. */
  lemma NormIsTrimmedName(s: Option<string>)
    ensures SliceAfterSpaces(Norm(s), ToLower(if s.Some? then s.value else ""))
  {
    var low := ToLower(if s.Some? then s.value else "");
    assert Norm(s) == Trim(low);
    TrimIsSlice(low);
  }

  /** Letter case does not matter: a name and its lower-cased form have the same key. */
  lemma NormIgnoresCase(s: string)
    ensures Norm(Some(s)) == Norm(Some(ToLower(s)))
  {
    ToLowerIdempotent(s);
  }

  /** Whitespace around a name does not matter. */
  lemma NormIgnoresPadding(p: string, s: string, q: string)
    requires AllSpace(p) && AllSpace(q)
    ensures Norm(Some(p + s + q)) == Norm(Some(s))
  {
    ToLowerConcat(p + s, q);
    ToLowerConcat(p, s);
    ToLowerKeepsSpaces(p);
    ToLowerKeepsSpaces(q);
    TrimPadded(p, ToLower(s), q);
  }

  lemma NormIdempotent(s: Option<string>)
    ensures Norm(Some(Norm(s))) == Norm(s)
  {
    var n := Norm(s);
    assert ToLower(n) == n;
  }

  /** The key a field is indexed under: its external id, or its label when `byLabel`. */
  function KeyOf(f: Field, byLabel: bool): Option<string>
  {
    if byLabel then f.fieldLabel else f.externalId
  }

  /** Field `f` is stored under normalised key `k` of the chosen index. */
  predicate HasKey(f: Field, byLabel: bool, k: string)
  {
    Present(KeyOf(f, byLabel)) && Norm(KeyOf(f, byLabel)) == k
  }

  /** `byExt` (or `byLabel`) after the loop has seen `fields`. */
  function Index(fields: seq<Field>, byLabel: bool): map<string, Field>
  {
    if fields == [] then map[]
    else
      var m := Index(fields[..|fields| - 1], byLabel);
      var f := fields[|fields| - 1];
      if Present(KeyOf(f, byLabel)) then m[Norm(KeyOf(f, byLabel)) := f] else m
  }

  /** Every entry of the index is stored under the key the field carries. */
  lemma {:induction false} IndexSound(fields: seq<Field>, byLabel: bool, k: string)
    requires k in Index(fields, byLabel)
    ensures HasKey(Index(fields, byLabel)[k], byLabel, k) && Index(fields, byLabel)[k] in fields
  {
    var n := |fields| - 1;
    var f := fields[n];
    if !(Present(KeyOf(f, byLabel)) && Norm(KeyOf(f, byLabel)) == k) {
      IndexSound(fields[..n], byLabel, k);
    }
  }

  /** When several fields carry the same key, the index holds the LAST of them. */
  lemma {:induction false} IndexLastWins(fields: seq<Field>, byLabel: bool, k: string, j: int)
    requires 0 <= j < |fields| && HasKey(fields[j], byLabel, k)
    requires forall l :: j < l < |fields| ==> !HasKey(fields[l], byLabel, k)
    ensures k in Index(fields, byLabel) && Index(fields, byLabel)[k] == fields[j]
  {
    var n := |fields| - 1;
    if j < n {
      var init := fields[..n];
      assert init[j] == fields[j];
      assert forall l :: j < l < n ==> init[l] == fields[l];
      IndexLastWins(init, byLabel, k, j);
    }
  }

  /** The loop of `pick` that fills `byExt` and `byLabel`. */
  method BuildIndexes(fields: seq<Field>) returns (byExt: map<string, Field>, byLabel: map<string, Field>)
    ensures byExt == Index(fields, false) && byLabel == Index(fields, true)
  {
    byExt, byLabel := map[], map[];
    for i := 0 to |fields|
      invariant byExt == Index(fields[..i], false)
      invariant byLabel == Index(fields[..i], true)
    {
      var f := fields[i];
      assert fields[..i + 1][..i] == fields[..i];
      if Present(f.externalId) {
        byExt := byExt[Norm(f.externalId) := f];
      }
      if Present(f.fieldLabel) {
        byLabel := byLabel[Norm(f.fieldLabel) := f];
      }
    }
    assert fields[..|fields|] == fields;
  }

  /** `byExt[norm(c)] || byLabel[norm(c)]` */
  function Lookup(byExt: map<string, Field>, byLabel: map<string, Field>, c: string): Option<Field>
  {
    var k := Norm(Some(c));
    if k in byExt then Some(byExt[k]) else if k in byLabel then Some(byLabel[k]) else None
  }

  predicate IsTextHit(o: Option<Field>)
  {
    o.Some? && o.value.ftype == "text"
  }

  /** `cands.map(c => byExt[norm(c)] || byLabel[norm(c)])` */
  function Hits(byExt: map<string, Field>, byLabel: map<string, Field>, cands: seq<string>): (hits: seq<Option<Field>>)
    ensures |hits| == |cands|
    ensures forall i :: 0 <= i < |cands| ==> hits[i] == Lookup(byExt, byLabel, cands[i])
  {
    seq(|cands|, i requires 0 <= i < |cands| => Lookup(byExt, byLabel, cands[i]))
  }

  /** `.find(f => f && f.type === "text")` */
  function FirstText(hits: seq<Option<Field>>): (r: Option<Field>)
    ensures r.Some? ==> r.value.ftype == "text"
    decreases |hits|
  {
    if hits == [] then None
    else if IsTextHit(hits[0]) then hits[0]
    else FirstText(hits[1..])
  }

  /** The result of `find` is the first text field in list order. */
  lemma {:induction false} FirstTextIsFirstHit(hits: seq<Option<Field>>, i: int)
    requires 0 <= i < |hits| && IsTextHit(hits[i])
    requires forall j :: 0 <= j < i ==> !IsTextHit(hits[j])
    ensures FirstText(hits) == hits[i]
    decreases |hits|
  {
    if i > 0 {
      assert forall j :: 0 <= j < i - 1 ==> hits[1..][j] == hits[j + 1];
      FirstTextIsFirstHit(hits[1..], i - 1);
    }
  }

  /** `find` yields nothing exactly when no element is a text field. */
  lemma {:induction false} FirstTextNone(hits: seq<Option<Field>>)
    ensures FirstText(hits) == None <==> forall i :: 0 <= i < |hits| ==> !IsTextHit(hits[i])
    decreases |hits|
  {
    if hits != [] {
      FirstTextNone(hits[1..]);
      assert forall i :: 1 <= i < |hits| ==> hits[1..][i - 1] == hits[i];
    }
  }

  /** `findText(cands)` */
  function FindText(byExt: map<string, Field>, byLabel: map<string, Field>, cands: seq<string>): (r: Option<Field>)
    ensures r.Some? ==> r.value.ftype == "text"
  {
    FirstText(Hits(byExt, byLabel, cands))
  }

  /** For each role the result is the lookup of the first candidate, in list order, that yields a text field. */
  lemma FindTextFirstHit(byExt: map<string, Field>, byLabel: map<string, Field>, cands: seq<string>, i: int)
    requires 0 <= i < |cands| && IsTextHit(Lookup(byExt, byLabel, cands[i]))
    requires forall j :: 0 <= j < i ==> !IsTextHit(Lookup(byExt, byLabel, cands[j]))
    ensures FindText(byExt, byLabel, cands) == Lookup(byExt, byLabel, cands[i])
  {
    FirstTextIsFirstHit(Hits(byExt, byLabel, cands), i);
  }

  /** A role is unresolved exactly when no candidate's lookup yields a text field. */
  lemma FindTextNone(byExt: map<string, Field>, byLabel: map<string, Field>, cands: seq<string>)
    ensures FindText(byExt, byLabel, cands) == None
            <==> forall i :: 0 <= i < |cands| ==> !IsTextHit(Lookup(byExt, byLabel, cands[i]))
  {
    FirstTextNone(Hits(byExt, byLabel, cands));
  }

  /** An external-id match hides a label match for the same candidate, even when it is not a text field. */
  lemma ExternalIdShadowsLabel(byExt: map<string, Field>, byLabel: map<string, Field>, c: string)
    requires Norm(Some(c)) in byExt && byExt[Norm(Some(c))].ftype != "text"
    requires Norm(Some(c)) in byLabel && byLabel[Norm(Some(c))].ftype == "text"
    ensures FindText(byExt, byLabel, [c]) == None
  {
    var hits := Hits(byExt, byLabel, [c]);
    assert hits[0] == Some(byExt[Norm(Some(c))]);
    assert hits[1..] == [];
    assert FirstText(hits) == FirstText(hits[1..]);
  }

  /** The roles the worker writes back. */
  datatype Roles = Roles(fraccion: Option<Field>, analisis: Option<Field>, criterio: Option<Field>, notas: Option<Field>)

  const FraccionCandidates: seq<string> := ["fraccion-2", "fraccion arancelaria", "fraccion-arancelaria", "fraccion"]
  const AnalisisCandidates: seq<string> := ["analisis", "descripcion-tecnica", "descripcion", "alternativas"]
  const CriterioCandidates: seq<string> := ["criterio-tlc", "criterio tlc", "criterio"]
  const NotasCandidates: seq<string> := ["notas-del-clasificador", "notas", "comentarios"]

  predicate TextOrUnresolved(o: Option<Field>)
  {
    o.None? || o.value.ftype == "text"
  }

  /** What `pick(fields)` returns; no role ever resolves to a non-text field. */
  function RolesOf(fields: seq<Field>): (r: Roles)
    ensures TextOrUnresolved(r.fraccion) && TextOrUnresolved(r.analisis)
    ensures TextOrUnresolved(r.criterio) && TextOrUnresolved(r.notas)
  {
    var e, l := Index(fields, false), Index(fields, true);
    Roles(FindText(e, l, FraccionCandidates), FindText(e, l, AnalisisCandidates),
          FindText(e, l, CriterioCandidates), FindText(e, l, NotasCandidates))
  }

  /** `pick(fields)` */
  method Pick(fields: seq<Field>) returns (roles: Roles)
    ensures roles == RolesOf(fields)
    ensures TextOrUnresolved(roles.fraccion) && TextOrUnresolved(roles.analisis)
    ensures TextOrUnresolved(roles.criterio) && TextOrUnresolved(roles.notas)
  {
    var byExt, byLabel := BuildIndexes(fields);
    roles := Roles(FindText(byExt, byLabel, FraccionCandidates), FindText(byExt, byLabel, AnalisisCandidates),
                   FindText(byExt, byLabel, CriterioCandidates), FindText(byExt, byLabel, NotasCandidates));
  }

  /** A name without upper-case letters or whitespace is its own normal form. */
  lemma NormOfNormal(s: string)
    requires forall i :: 0 <= i < |s| ==> !IsSpace(s[i]) && !('A' <= s[i] <= 'Z')
    ensures Norm(Some(s)) == s
  {
    assert ToLower(s) == s;
  }
}
