/** The course decorators of src/patterns/structural/CourseDecorator.ts. A
    component is a basic course or one capability layer around another
    component; each layer only changes what the getters present, never the
    wrapped course. The locale date formatting of the time-limited layer is
    a parameter (`formatDate`). */
module CourseDecorator {
  import opened SeqUtil
  import opened Types

  datatype CourseComponent =
    | BasicCourse(course: Course)
    | CertificateEnabledCourse(component: CourseComponent, certificateTemplate: string)
    | PremiumCourse(component: CourseComponent, extraMaterials: seq<string>)
    | TimeLimitedCourse(component: CourseComponent, accessEndDate: int)

  const CertificateSuffix: string := " (Certificate Available)"
  const PremiumSuffix: string := " (Premium)"
  const PremiumNote: string := "\n\nThis premium course includes exclusive materials."
  const AccessUntil: string := "\n\nAccess until: "
  const Placeholder: string := "{studentName}"

  /** The course at the bottom of the chain. */
  function Base(c: CourseComponent): Course
  {
    match c
    case BasicCourse(course) => course
    case CertificateEnabledCourse(inner, _) => Base(inner)
    case PremiumCourse(inner, _) => Base(inner)
    case TimeLimitedCourse(inner, _) => Base(inner)
  }

  function GetId(c: CourseComponent): string
  {
    match c
    case BasicCourse(course) => course.id
    case CertificateEnabledCourse(inner, _) => GetId(inner)
    case PremiumCourse(inner, _) => GetId(inner)
    case TimeLimitedCourse(inner, _) => GetId(inner)
  }

  function GetTitle(c: CourseComponent): string
  {
    match c
    case BasicCourse(course) => course.title
    case CertificateEnabledCourse(inner, _) => GetTitle(inner) + CertificateSuffix
    case PremiumCourse(inner, _) => GetTitle(inner) + PremiumSuffix
    case TimeLimitedCourse(inner, _) => GetTitle(inner)
  }

  function GetDescription(c: CourseComponent, formatDate: int -> string): string
  {
    match c
    case BasicCourse(course) => course.description
    case CertificateEnabledCourse(inner, _) => GetDescription(inner, formatDate)
    case PremiumCourse(inner, _) => GetDescription(inner, formatDate) + PremiumNote
    case TimeLimitedCourse(inner, end) => GetDescription(inner, formatDate) + AccessUntil + formatDate(end)
  }

  function GetModules(c: CourseComponent): seq<Module>
    reads Base(c)
  {
    match c
    case BasicCourse(course) => course.modules
    case CertificateEnabledCourse(inner, _) => GetModules(inner)
    case PremiumCourse(inner, _) => GetModules(inner)
    case TimeLimitedCourse(inner, _) => GetModules(inner)
  }

  /** Through any chain of layers, the id and the modules are the base
      course's own. */
  lemma {:induction false} IdAndModulesPassThrough(c: CourseComponent)
    ensures GetId(c) == Base(c).id
    ensures GetModules(c) == Base(c).modules
  {
    match c
    case BasicCourse(_) =>
    case CertificateEnabledCourse(inner, _) => IdAndModulesPassThrough(inner);
    case PremiumCourse(inner, _) => IdAndModulesPassThrough(inner);
    case TimeLimitedCourse(inner, _) => IdAndModulesPassThrough(inner);
  }

  /** The basic course presents the wrapped course unchanged. */
  lemma BasicCourseIsTransparent(course: Course, formatDate: int -> string)
    ensures GetId(BasicCourse(course)) == course.id
    ensures GetTitle(BasicCourse(course)) == course.title
    ensures GetDescription(BasicCourse(course), formatDate) == course.description
    ensures GetModules(BasicCourse(course)) == course.modules
  {
  }

  /** What each layer contributes to the title and the description. */
  lemma LayerPresentation(inner: CourseComponent, template: string, extras: seq<string>, end: int,
                          formatDate: int -> string)
    ensures GetTitle(CertificateEnabledCourse(inner, template)) == GetTitle(inner) + " (Certificate Available)"
    ensures GetDescription(CertificateEnabledCourse(inner, template), formatDate) == GetDescription(inner, formatDate)
    ensures GetTitle(PremiumCourse(inner, extras)) == GetTitle(inner) + " (Premium)"
    ensures GetDescription(PremiumCourse(inner, extras), formatDate) ==
      GetDescription(inner, formatDate) + "\n\nThis premium course includes exclusive materials."
    ensures GetTitle(TimeLimitedCourse(inner, end)) == GetTitle(inner)
    ensures GetDescription(TimeLimitedCourse(inner, end), formatDate) ==
      GetDescription(inner, formatDate) + "\n\nAccess until: " + formatDate(end)
  {
  }

  /** The layers of a chain, innermost first. A time-limited layer keeps its
      end date, which its description note shows. */
  datatype Layer = CertificateLayer | PremiumLayer | TimeLimitedLayer(accessEndDate: int)

  function Layers(c: CourseComponent): seq<Layer>
  {
    match c
    case BasicCourse(_) => []
    case CertificateEnabledCourse(inner, _) => Layers(inner) + [CertificateLayer]
    case PremiumCourse(inner, _) => Layers(inner) + [PremiumLayer]
    case TimeLimitedCourse(inner, end) => Layers(inner) + [TimeLimitedLayer(end)]
  }

  function TitleSuffix(l: Layer): string
  {
    match l
    case CertificateLayer => CertificateSuffix
    case PremiumLayer => PremiumSuffix
    case TimeLimitedLayer(_) => ""
  }

  /** The text a layer appends to the description. */
  function DescriptionNote(l: Layer, formatDate: int -> string): string
  {
    match l
    case CertificateLayer => ""
    case PremiumLayer => PremiumNote
    case TimeLimitedLayer(end) => AccessUntil + formatDate(end)
  }

  /** The description notes of the given layers, first layer first. */
  function Notes(ls: seq<Layer>, formatDate: int -> string): string
  {
    if ls == [] then "" else DescriptionNote(ls[0], formatDate) + Notes(ls[1..], formatDate)
  }

  lemma {:induction false} NotesAppend(ls: seq<Layer>, l: Layer, formatDate: int -> string)
    ensures Notes(ls + [l], formatDate) == Notes(ls, formatDate) + DescriptionNote(l, formatDate)
  {
    if ls != [] {
      assert (ls + [l])[1..] == ls[1..] + [l];
      NotesAppend(ls[1..], l, formatDate);
    }
  }

  /** The suffixes of the given layers, first layer first. */
  function Suffixes(ls: seq<Layer>): string
  {
    if ls == [] then "" else TitleSuffix(ls[0]) + Suffixes(ls[1..])
  }

  lemma {:induction false} SuffixesAppend(ls: seq<Layer>, l: Layer)
    ensures Suffixes(ls + [l]) == Suffixes(ls) + TitleSuffix(l)
  {
    if ls != [] {
      assert (ls + [l])[1..] == ls[1..] + [l];
      SuffixesAppend(ls[1..], l);
    }
  }

  /** The presented title is the base title followed by the layers'
      suffixes in wrapping order, innermost layer first. */
  lemma {:induction false} TitleFollowsWrappingOrder(c: CourseComponent)
    ensures GetTitle(c) == Base(c).title + Suffixes(Layers(c))
  {
    match c
    case BasicCourse(_) =>
    case CertificateEnabledCourse(inner, _) =>
      TitleFollowsWrappingOrder(inner);
      SuffixesAppend(Layers(inner), CertificateLayer);
    case PremiumCourse(inner, _) =>
      TitleFollowsWrappingOrder(inner);
      SuffixesAppend(Layers(inner), PremiumLayer);
    case TimeLimitedCourse(inner, end) =>
      TitleFollowsWrappingOrder(inner);
      SuffixesAppend(Layers(inner), TimeLimitedLayer(end));
  }

  /** The presented description is the base description followed by the
      layers' notes in wrapping order, innermost layer first: a premium
      layer adds its materials note, a time-limited one its access date,
      and a certificate layer nothing. */
  lemma {:induction false} DescriptionFollowsWrappingOrder(c: CourseComponent, formatDate: int -> string)
    ensures GetDescription(c, formatDate) == Base(c).description + Notes(Layers(c), formatDate)
  {
    match c
    case BasicCourse(_) =>
    case CertificateEnabledCourse(inner, _) =>
      DescriptionFollowsWrappingOrder(inner, formatDate);
      NotesAppend(Layers(inner), CertificateLayer, formatDate);
    case PremiumCourse(inner, _) =>
      DescriptionFollowsWrappingOrder(inner, formatDate);
      NotesAppend(Layers(inner), PremiumLayer, formatDate);
    case TimeLimitedCourse(inner, end) =>
      DescriptionFollowsWrappingOrder(inner, formatDate);
      NotesAppend(Layers(inner), TimeLimitedLayer(end), formatDate);
  }

  /** Time-limited, then premium, then certificate gives
      "<title> (Premium) (Certificate Available)". */
  lemma AllThreeLayers(course: Course, end: int, extras: seq<string>, template: string)
    ensures GetTitle(CertificateEnabledCourse(PremiumCourse(TimeLimitedCourse(BasicCourse(course), end), extras), template))
      == course.title + " (Premium) (Certificate Available)"
  {
    var timed := TimeLimitedCourse(BasicCourse(course), end);
    var premium := PremiumCourse(timed, extras);
    assert GetTitle(timed) == course.title;
    assert GetTitle(premium) == course.title + PremiumSuffix;
    assert course.title + PremiumSuffix + CertificateSuffix == course.title + " (Premium) (Certificate Available)";
  }

  /** `isAccessible`: only the time-limited layer itself offers it, and it
      holds strictly before the end of access. */
  predicate IsAccessible(c: CourseComponent, now: int)
    requires c.TimeLimitedCourse?
    ensures IsAccessible(c, now) <==> now + 1 <= c.accessEndDate
  {
    now < c.accessEndDate
  }

  /** `pattern` occurs in `s` at position `j`. */
  predicate OccursAt(s: string, pattern: string, j: int)
  {
    0 <= j && j + |pattern| <= |s| && s[j..j + |pattern|] == pattern
  }

  /** The first position at or after `from` at which `pattern` occurs in `s`. */
  function IndexOfSubstringFrom(s: string, pattern: string, from: nat): (r: Option<nat>)
    ensures r.Some? ==> from <= r.value && OccursAt(s, pattern, r.value)
    ensures r.Some? ==> forall j :: from <= j < r.value ==> !OccursAt(s, pattern, j)
    ensures r.None? ==> forall j :: from <= j ==> !OccursAt(s, pattern, j)
    decreases |s| - from
  {
    if from + |pattern| > |s| then None
    else if OccursAt(s, pattern, from) then Some(from)
    else IndexOfSubstringFrom(s, pattern, from + 1)
  }

  /** `indexOf` for a string pattern: the first position where it occurs. */
  function IndexOfSubstring(s: string, pattern: string): (r: Option<nat>)
    ensures r.Some? ==> OccursAt(s, pattern, r.value)
    ensures r.Some? ==> forall j :: 0 <= j < r.value ==> !OccursAt(s, pattern, j)
    ensures r.None? ==> forall j :: !OccursAt(s, pattern, j)
  {
    IndexOfSubstringFrom(s, pattern, 0)
  }

  /** `String.prototype.replace` with a string pattern, as JavaScript runs
      it: the first occurrence is replaced, and the replacement is expanded
      by GetSubstitution (ECMAScript, section 22.1.3.19.1), where `$$`
      stands for "$", `$&` for the matched text, `` $` `` for the text before
      the match and `$'` for the text after it. */
  function JsReplaceFirst(s: string, pattern: string, replacement: string): (r: string)
    ensures IndexOfSubstring(s, pattern).None? ==> r == s
    ensures IndexOfSubstring(s, pattern).Some? ==>
      var k, rest := IndexOfSubstring(s, pattern).value, |s| - IndexOfSubstring(s, pattern).value - |pattern|;
      && k + rest <= |r|
      && r[..k] == s[..k]
      && r[|r| - rest..] == s[k + |pattern|..]
  {
    match IndexOfSubstring(s, pattern)
    case None => s
    case Some(p) => s[..p] + Substitution(pattern, s, p, replacement) + s[p + |pattern|..]
  }

  /** GetSubstitution for a match of `matched` at `position` in `str`, with
      no capture groups (a string pattern has none, so `$1` and `$<` stay literal). */
  function Substitution(matched: string, str: string, position: nat, replacement: string): string
    requires position + |matched| <= |str|
    decreases |replacement|
  {
    if |replacement| >= 2 && replacement[0] == '$' && replacement[1] == '$' then
      "$" + Substitution(matched, str, position, replacement[2..])
    else if |replacement| >= 2 && replacement[0] == '$' && replacement[1] == '&' then
      matched + Substitution(matched, str, position, replacement[2..])
    else if |replacement| >= 2 && replacement[0] == '$' && replacement[1] == '`' then
      str[..position] + Substitution(matched, str, position, replacement[2..])
    else if |replacement| >= 2 && replacement[0] == '$' && replacement[1] == '\'' then
      str[position + |matched|..] + Substitution(matched, str, position, replacement[2..])
    else if replacement == [] then ""
    else [replacement[0]] + Substitution(matched, str, position, replacement[1..])
  }

  /** A replacement without '$' is inserted literally. */
  lemma {:induction false} SubstitutionWithoutDollar(matched: string, str: string, position: nat, replacement: string)
    requires position + |matched| <= |str|
    requires '$' !in replacement
    ensures Substitution(matched, str, position, replacement) == replacement
    decreases |replacement|
  {
    if replacement != [] {
      assert replacement[0] != '$';
      assert forall i :: 0 <= i < |replacement| - 1 ==> replacement[1..][i] == replacement[i + 1];
      SubstitutionWithoutDollar(matched, str, position, replacement[1..]);
      assert [replacement[0]] + replacement[1..] == replacement;
    }
  }

  /** `generateCertificate` as written: `template.replace('{studentName}', name)`. */
  function GenerateCertificateAsWritten(c: CourseComponent, studentName: string): string
    requires c.CertificateEnabledCourse?
  {
    JsReplaceFirst(c.certificateTemplate, Placeholder, studentName)
  }

  /** The name is inserted literally in place of the first placeholder; a
      template without the placeholder is returned unchanged, and text after
      the first placeholder (further placeholders included) is kept as is. */
  function GenerateCertificate(c: CourseComponent, studentName: string): (r: string)
    requires c.CertificateEnabledCourse?
    ensures IndexOfSubstring(c.certificateTemplate, Placeholder).None? ==> r == c.certificateTemplate
    ensures IndexOfSubstring(c.certificateTemplate, Placeholder).Some? ==>
      var t, p := c.certificateTemplate, IndexOfSubstring(c.certificateTemplate, Placeholder).value;
      && OccursAt(t, Placeholder, p)
      && (forall j :: 0 <= j < p ==> !OccursAt(t, Placeholder, j))
      && |r| == |t| - |Placeholder| + |studentName|
      && r[..p] == t[..p]
      && r[p..p + |studentName|] == studentName
      && r[p + |studentName|..] == t[p + |Placeholder|..]
  {
    var t := c.certificateTemplate;
    match IndexOfSubstring(t, Placeholder)
    case None => t
    case Some(p) => t[..p] + studentName + t[p + |Placeholder|..]
  }

  /** For a name without '$' the two agree. */
  lemma AsWrittenAgreesWithoutDollar(c: CourseComponent, studentName: string)
    requires c.CertificateEnabledCourse?
    requires '$' !in studentName
    ensures GenerateCertificateAsWritten(c, studentName) == GenerateCertificate(c, studentName)
  {
    match IndexOfSubstring(c.certificateTemplate, Placeholder)
    case None =>
    case Some(p) => SubstitutionWithoutDollar(Placeholder, c.certificateTemplate, p, studentName);
  }

  /** A student named "$&" gets a certificate that still reads
      "{studentName}": JavaScript pastes the matched placeholder back. */
  lemma DollarNameIsNotInserted(course: Course)
    ensures GenerateCertificateAsWritten(CertificateEnabledCourse(BasicCourse(course), "{studentName}"), "$&")
      == "{studentName}"
    ensures GenerateCertificate(CertificateEnabledCourse(BasicCourse(course), "{studentName}"), "$&") == "$&"
  {
    var t := "{studentName}";
    assert OccursAt(t, Placeholder, 0);
    assert IndexOfSubstring(t, Placeholder) == Some(0);
    assert Substitution(Placeholder, t, 0, "$&") == Placeholder + Substitution(Placeholder, t, 0, "");
  }
}
