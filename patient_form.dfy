/**
 * `handleInputChange` of web/src/components/PatientForm.tsx: every edit of
 * an input hands `onDataChange` one new record, a copy of the current one
 * with the edited field replaced.
 */
module PatientForm {

  /** `PatientData`: four free-text fields. */
  datatype PatientData = PatientData(age: string, gender: string, weight: string, symptoms: string)

  /** `keyof PatientData` */
  datatype Field = Age | Gender | Weight | Symptoms

  const EmptyPatient: PatientData := PatientData("", "", "", "")

  /** `data[field]` */
  function Get(data: PatientData, field: Field): string {
    match field
    case Age => data.age
    case Gender => data.gender
    case Weight => data.weight
    case Symptoms => data.symptoms
  }

  /** `{ ...data, [field]: value }` */
  function Set(data: PatientData, field: Field, value: string): (r: PatientData)
    ensures Get(r, field) == value
    ensures forall f :: f != field ==> Get(r, f) == Get(data, f)
  {
    match field
    case Age => data.(age := value)
    case Gender => data.(gender := value)
    case Weight => data.(weight := value)
    case Symptoms => data.(symptoms := value)
  }

  /**
   * `handleInputChange(field, value)`: the records passed to `onDataChange`,
   * in call order. There is exactly one, holding `value` as typed (no
   * trimming, no numeric check) and the other fields of `data`.
   */
  function HandleInputChange(data: PatientData, field: Field, value: string): (calls: seq<PatientData>)
    ensures |calls| == 1
    ensures Get(calls[0], field) == value
    ensures forall f :: f != field ==> Get(calls[0], f) == Get(data, f)
  {
    [Set(data, field, value)]
  }

  /** A record is determined by its four fields. */
  lemma FieldsDetermine(a: PatientData, b: PatientData)
    requires forall f :: Get(a, f) == Get(b, f)
    ensures a == b
  {
    assert Get(a, Age) == Get(b, Age) && Get(a, Gender) == Get(b, Gender);
    assert Get(a, Weight) == Get(b, Weight) && Get(a, Symptoms) == Get(b, Symptoms);
  }

  /** Applying the same change twice gives the record applying it once gives. */
  lemma ChangeIdempotent(data: PatientData, field: Field, value: string)
    ensures Set(Set(data, field, value), field, value) == Set(data, field, value)
  {
    FieldsDetermine(Set(Set(data, field, value), field, value), Set(data, field, value));
  }

  /** Typing a field's current value back changes nothing. */
  lemma ChangeToSameValue(data: PatientData, field: Field)
    ensures Set(data, field, Get(data, field)) == data
  {
    FieldsDetermine(Set(data, field, Get(data, field)), data);
  }

  /** Edits of two different fields commute; the later of two edits of one field wins. */
  lemma ChangesCommute(data: PatientData, f: Field, v: string, g: Field, w: string)
    ensures f != g ==> Set(Set(data, f, v), g, w) == Set(Set(data, g, w), f, v)
    ensures f == g ==> Set(Set(data, f, v), g, w) == Set(data, g, w)
  {
    FieldsDetermine(Set(Set(data, f, v), g, w), if f != g then Set(Set(data, g, w), f, v) else Set(data, g, w));
  }
}
