/** The slice of Java and Android that the Meganet adaptor observes: nullable
    references, thrown exceptions, the values of a `Map<String, ?>` and the casts
    applied to them, and `String.equalsIgnoreCase`. */
module Platform {

  /** A Java reference that may be null. */
  datatype Option<+T> = None | Some(value: T)

  /** A Java call either returns a value or throws. */
  datatype Outcome<+T> = Returned(value: T) | Threw(exception: JavaException)

  /** The unchecked exceptions that can leave the adaptor's code. */
  datatype JavaException =
    | IllegalArgument(message: string)
    | ClassCast
    | NullPointer
    | ActivityNotFound(cause: Option<string>)

  /** An Android `Context`; the adaptor only reads the display density of its resources. */
  datatype Context = Context(density: real)

  /** A value stored in a `Map<String, ?>`, distinguished by what the adaptor casts it to. */
  datatype Value = Null | Str(s: string) | Ctx(context: Context) | OtherObject

  /** The parameter maps handed over by the mediation SDK. */
  type Params = map<string, Value>

  /** `Map.get`: a missing key reads as null. */
  function Get(params: Params, key: string): Value {
    if key in params then params[key] else Null
  }

  /** The cast `(String) v`: null passes, a non-string throws. */
  function AsString(v: Value): (r: Outcome<Option<string>>)
    ensures r.Threw? <==> !(v.Null? || v.Str?)
    ensures r.Returned? ==> (r.value.Some? <==> v.Str?)
    ensures r.Returned? && v.Str? ==> r.value.value == v.s
    ensures r.Threw? ==> r.exception == ClassCast
  {
    match v
    case Null => Returned(None)
    case Str(s) => Returned(Some(s))
    case _ => Threw(ClassCast)
  }

  /** The cast `(Context) v`: null passes, anything but a context throws. */
  function AsContext(v: Value): (r: Outcome<Option<Context>>)
    ensures r.Threw? <==> !(v.Null? || v.Ctx?)
    ensures r.Returned? ==> (r.value.Some? <==> v.Ctx?)
    ensures r.Returned? && v.Ctx? ==> r.value == Some(v.context)
    ensures r.Threw? ==> r.exception == ClassCast
  {
    match v
    case Null => Returned(None)
    case Ctx(c) => Returned(Some(c))
    case _ => Threw(ClassCast)
  }

  /** `Character.toLowerCase(Character.toUpperCase(c))` for the characters that fold
      onto an ASCII letter; every other character is left as it is. */
  function FoldCase(c: char): char {
    if 'A' <= c <= 'Z' then (c as int + 32) as char
    else if c == '\U{0130}' || c == '\U{0131}' then 'i'
    else if c == '\U{017F}' then 's'
    else if c == '\U{212A}' then 'k'
    else c
  }

  /** `s.equalsIgnoreCase(t)`: same length and pairwise equal after case folding. */
  predicate EqualsIgnoreCase(s: string, t: string) {
    |s| == |t| && forall i :: 0 <= i < |s| ==> FoldCase(s[i]) == FoldCase(t[i])
  }

  /** The strings equal to "YES" ignoring case, spelled out character by character:
      besides the eight ASCII spellings, the Latin long s (U+017F) upper-cases to 'S'. */
  lemma EqualsYesIgnoringCase(s: string)
    ensures EqualsIgnoreCase(s, "YES") <==>
      |s| == 3 && s[0] in "Yy" && s[1] in "Ee" && s[2] in "Ss\U{017F}"
  {
    if |s| == 3 {
      assert FoldCase('Y') == 'y' && FoldCase('E') == 'e' && FoldCase('S') == 's';
    }
  }
}
