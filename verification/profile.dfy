/** The student profile card shown in the right-hand bar, shared by both editor versions. */
module Profile {
  import opened Wrappers

  datatype Profile = Profile(id: string, name: string, status: string, pic: Option<string>)

  /** The text inputs of the edit dialog, by their `name` attribute. */
  datatype Field = Id | Name | Status

  /** The hard-coded profile both versions start from; the older version has no picture. */
  const Default: Profile := Profile("23–22–003", "Jaynie Claire Q. Correa", "College Student", None)

  function FieldValue(p: Profile, f: Field): string {
    match f
    case Id => p.id
    case Name => p.name
    case Status => p.status
  }

  /** `{ ...prev, [name]: value }`: the named field takes the value, every other field is kept. */
  function SetField(p: Profile, f: Field, value: string): (r: Profile)
    ensures FieldValue(r, f) == value
    ensures forall g :: g != f ==> FieldValue(r, g) == FieldValue(p, g)
    ensures r.pic == p.pic
  {
    match f
    case Id => p.(id := value)
    case Name => p.(name := value)
    case Status => p.(status := value)
  }
}
