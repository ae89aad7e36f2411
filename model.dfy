/**
 * The entities and enumerations of the excuse generator: fragments, memes,
 * laws and the excuses composed from them, with the enum names Java prints
 * and parses, and the exceptions the services throw.
 */
module Model {
  import opened Wrappers

  /** A `LocalDateTime` reading, taken as an opaque input. */
  type Instant = int

  /** The slot a fragment fills in an excuse. */
  datatype FragmentType = Contexto | Causa | Consecuencia | Recomendacion

  /** The closed set of team roles. */
  datatype Role = Dev | Qa | DevOps | Pm | Architect | DevRel

  /** Which optional parts an excuse was meant to carry. */
  datatype ExcuseType = Simple | ConMeme | ConLey | UltraShark

  /** A reusable text unit; a role of `None` means it applies to every role. */
  datatype Fragment = Fragment(
    id: Option<int>,
    kind: Option<FragmentType>,
    text: Option<string>,
    role: Option<Role>,
    createdAt: Option<Instant>,
    updatedAt: Option<Instant>)

  datatype Meme = Meme(
    id: Option<int>,
    author: Option<string>,
    quote: Option<string>,
    createdAt: Option<Instant>,
    updatedAt: Option<Instant>)

  datatype Law = Law(
    id: Option<int>,
    name: Option<string>,
    description: Option<string>,
    category: Option<string>,
    createdAt: Option<Instant>,
    updatedAt: Option<Instant>)

  /** A composed excuse; it holds the fragment, meme and law records it refers to. */
  datatype Excuse = Excuse(
    id: Option<int>,
    context: Option<Fragment>,
    cause: Option<Fragment>,
    consequence: Option<Fragment>,
    recommendation: Option<Fragment>,
    meme: Option<Meme>,
    law: Option<Law>,
    excuseType: Option<ExcuseType>,
    role: Option<Role>,
    seed: Option<int>,
    createdAt: Option<Instant>,
    updatedAt: Option<Instant>)

  /** `new Excuse()`: every field null. */
  const BlankExcuse := Excuse(None, None, None, None, None, None, None, None, None, None, None, None)

  /** The exceptions the core throws. */
  datatype Error =
    | NoFragmentsAvailable(kind: FragmentType)      // IllegalStateException from a fragment pick
    | InvalidRole(token: string)                    // IllegalArgumentException from generateByRole
    | EntityNotFound(entity: string, id: int)       // EntityNotFoundException from update and delete
    | NoEnumConstant(enumType: string, name: string) // IllegalArgumentException from Enum.valueOf
    | NullEnumName(enumType: string)                // NullPointerException from Enum.valueOf(null)

  // Id accessors handed to the generic repository, one pair per entity.
  function FragmentId(f: Fragment): Option<int> { f.id }
  function WithFragmentId(f: Fragment, id: int): Fragment { f.(id := Some(id)) }
  function MemeId(m: Meme): Option<int> { m.id }
  function WithMemeId(m: Meme, id: int): Meme { m.(id := Some(id)) }
  function LawId(l: Law): Option<int> { l.id }
  function WithLawId(l: Law, id: int): Law { l.(id := Some(id)) }
  function ExcuseId(e: Excuse): Option<int> { e.id }
  function WithExcuseId(e: Excuse, id: int): Excuse { e.(id := Some(id)) }

  // ---------------------------------------------------------------------
  // Enum names (`name()`) and exact-name parsing (`valueOf`)
  // ---------------------------------------------------------------------

  function FragmentTypeName(t: FragmentType): string {
    match t
    case Contexto => "CONTEXTO"
    case Causa => "CAUSA"
    case Consecuencia => "CONSECUENCIA"
    case Recomendacion => "RECOMENDACION"
  }

  function RoleName(r: Role): string {
    match r
    case Dev => "DEV"
    case Qa => "QA"
    case DevOps => "DEVOPS"
    case Pm => "PM"
    case Architect => "ARCHITECT"
    case DevRel => "DEVREL"
  }

  function ExcuseTypeName(t: ExcuseType): string {
    match t
    case Simple => "SIMPLE"
    case ConMeme => "CON_MEME"
    case ConLey => "CON_LEY"
    case UltraShark => "ULTRA_SHARK"
  }

  /** `FragmentType.valueOf(s)`: the constant whose name is exactly `s`, case included. */
  function FragmentTypeOf(s: string): (r: Option<FragmentType>)
    ensures r.Some? ==> FragmentTypeName(r.value) == s
    ensures r.None? ==> forall t :: FragmentTypeName(t) != s
  {
    if s == "CONTEXTO" then Some(Contexto)
    else if s == "CAUSA" then Some(Causa)
    else if s == "CONSECUENCIA" then Some(Consecuencia)
    else if s == "RECOMENDACION" then Some(Recomendacion)
    else None
  }

  /** `Role.valueOf(s)`: exact, case-sensitive match against the six names. */
  function RoleOf(s: string): (r: Option<Role>)
    ensures r.Some? ==> RoleName(r.value) == s
    ensures r.None? ==> forall t :: RoleName(t) != s
  {
    if s == "DEV" then Some(Dev)
    else if s == "QA" then Some(Qa)
    else if s == "DEVOPS" then Some(DevOps)
    else if s == "PM" then Some(Pm)
    else if s == "ARCHITECT" then Some(Architect)
    else if s == "DEVREL" then Some(DevRel)
    else None
  }

  /** `ExcuseType.valueOf(s)`. */
  function ExcuseTypeOf(s: string): (r: Option<ExcuseType>)
    ensures r.Some? ==> ExcuseTypeName(r.value) == s
    ensures r.None? ==> forall t :: ExcuseTypeName(t) != s
  {
    if s == "SIMPLE" then Some(Simple)
    else if s == "CON_MEME" then Some(ConMeme)
    else if s == "CON_LEY" then Some(ConLey)
    else if s == "ULTRA_SHARK" then Some(UltraShark)
    else None
  }

  /** Parsing a printed name gives back the constant, for all three enums. */
  lemma NamesRoundTrip(t: FragmentType, r: Role, e: ExcuseType)
    ensures FragmentTypeOf(FragmentTypeName(t)) == Some(t)
    ensures RoleOf(RoleName(r)) == Some(r)
    ensures ExcuseTypeOf(ExcuseTypeName(e)) == Some(e)
  {
  }

  // ---------------------------------------------------------------------
  // Role tokens: `Role.valueOf(token.toUpperCase())`
  // ---------------------------------------------------------------------

  /** Upper-cases an ASCII letter and leaves every other character alone. */
  function UpperChar(c: char): char {
    if 'a' <= c <= 'z' then (c as int - 32) as char else c
  }

  function LowerChar(c: char): char {
    if 'A' <= c <= 'Z' then (c as int + 32) as char else c
  }

  /** `String.toUpperCase()` restricted to ASCII letters. */
  function ToUpper(s: string): (r: string)
    ensures |r| == |s| && forall i :: 0 <= i < |s| ==> r[i] == UpperChar(s[i])
  {
    if s == [] then [] else [UpperChar(s[0])] + ToUpper(s[1..])
  }

  function ToLower(s: string): (r: string)
    ensures |r| == |s| && forall i :: 0 <= i < |s| ==> r[i] == LowerChar(s[i])
  {
    if s == [] then [] else [LowerChar(s[0])] + ToLower(s[1..])
  }

  /**
   * The role check of generateByRole: the token is upper-cased and must then
   * name one of the six roles; anything else is an invalid role.
   */
  function ParseRole(token: string): (r: Result<Role, Error>)
    ensures r.Ok? <==> exists role :: RoleName(role) == ToUpper(token)
    ensures r.Ok? ==> RoleName(r.value) == ToUpper(token)
    ensures r.Err? ==> r.error == InvalidRole(token)
  {
    match RoleOf(ToUpper(token))
    case Some(role) => Ok(role)
    case None => Err(InvalidRole(token))
  }

  /** A character that is not a lower-case ASCII letter is fixed by upper-casing, also after lower-casing. */
  lemma UpperOfLowerChar(c: char)
    requires !('a' <= c <= 'z')
    ensures UpperChar(c) == c && UpperChar(LowerChar(c)) == c
  {
    if 'A' <= c <= 'Z' {
      assert 'a' <= LowerChar(c) <= 'z';
    }
  }

  /** A string without lower-case ASCII letters is fixed by upper-casing, also after lower-casing. */
  lemma {:induction false} UpperOfLowerRestores(s: string)
    requires forall i :: 0 <= i < |s| ==> !('a' <= s[i] <= 'z')
    ensures ToUpper(s) == s
    ensures ToUpper(ToLower(s)) == s
  {
    if s != [] {
      UpperOfLowerChar(s[0]);
      UpperOfLowerRestores(s[1..]);
      assert ToLower(s) == [LowerChar(s[0])] + ToLower(s[1..]);
      assert ToLower(s)[1..] == ToLower(s[1..]);
    }
  }

  /** Role names are upper case, so a name is accepted in lower case too. */
  lemma ParseRoleIgnoresCase(role: Role)
    ensures ParseRole(RoleName(role)) == Ok(role)
    ensures ParseRole(ToLower(RoleName(role))) == Ok(role)
  {
    UpperOfLowerRestores(RoleName(role));
  }

  /** Two tokens that upper-case alike get the same answer, up to the token quoted in the error. */
  lemma ParseRoleDependsOnlyOnUpperCase(a: string, b: string)
    requires ToUpper(a) == ToUpper(b)
    ensures ParseRole(a).Ok? == ParseRole(b).Ok?
    ensures ParseRole(a).Ok? ==> ParseRole(a) == ParseRole(b)
  {
  }

  // ---------------------------------------------------------------------
  // Exception messages
  // ---------------------------------------------------------------------

  function DigitChar(d: int): (c: char)
    requires 0 <= d < 10
    ensures IsDigit(c) && c as int - '0' as int == d
  {
    ('0' as int + d) as char
  }

  predicate IsDigit(c: char) {
    '0' <= c <= '9'
  }

  /** `Long.toString(n)`: the decimal digits of `n`, after a minus sign when it is negative. */
  function DecimalString(n: int): (s: string)
    ensures |s| > 0
    ensures n >= 0 ==> forall i :: 0 <= i < |s| ==> IsDigit(s[i])
    ensures n < 0 ==> s[0] == '-' && forall i :: 1 <= i < |s| ==> IsDigit(s[i])
    decreases if n < 0 then 1 - n else n
  {
    if n < 0 then "-" + DecimalString(-n)
    else if n < 10 then [DigitChar(n)]
    else DecimalString(n / 10) + [DigitChar(n % 10)]
  }

  /** The number a run of decimal digits denotes. */
  function DigitsValue(s: string): int
    decreases |s|
  {
    if s == [] then 0 else DigitsValue(s[..|s| - 1]) * 10 + (s[|s| - 1] as int - '0' as int)
  }

  /** `Long.parseLong(s)` on a digit run with an optional leading minus sign. */
  function ParseDecimal(s: string): int {
    if |s| > 0 && s[0] == '-' then -DigitsValue(s[1..]) else DigitsValue(s)
  }

  /** Reading the decimal text of a number back gives the number. */
  lemma {:induction false} DecimalStringRoundTrip(n: int)
    ensures ParseDecimal(DecimalString(n)) == n
    decreases if n < 0 then 1 - n else n
  {
    if n < 0 {
      DecimalStringRoundTrip(-n);
      assert DecimalString(n)[1..] == DecimalString(-n);
    } else if n < 10 {
      var s := DecimalString(n);
      assert s == [DigitChar(n)] && s[..0] == [];
      assert DigitsValue(s) == DigitsValue([]) * 10 + n;
    } else {
      DecimalStringRoundTrip(n / 10);
      var s := DecimalString(n);
      assert s[..|s| - 1] == DecimalString(n / 10);
      assert IsDigit(s[0]);
    }
  }

  /** So distinct numbers have distinct decimal texts. */
  lemma DecimalStringInjective(i: int, j: int)
    requires DecimalString(i) == DecimalString(j)
    ensures i == j
  {
    DecimalStringRoundTrip(i);
    DecimalStringRoundTrip(j);
  }

  /**
   * The message each exception carries: the missing kind, the rejected token
   * and the entity with its id are each named at the head of their message.
   */
  function Message(e: Error): (m: string)
    ensures e.NoFragmentsAvailable? ==> "No hay fragmentos de tipo " + FragmentTypeName(e.kind) <= m
    ensures e.InvalidRole? ==> "Rol inválido: " + e.token <= m
    ensures e.EntityNotFound? ==> e.entity + " con ID " + DecimalString(e.id) <= m
    ensures e.NullEnumName? ==> m == "Name is null"
  {
    match e
    case NoFragmentsAvailable(kind) =>
      "No hay fragmentos de tipo " + FragmentTypeName(kind) + " disponibles en la base de datos"
    case InvalidRole(token) =>
      "Rol inválido: " + token + ". Roles válidos: DEV, QA, DEVOPS, PM, ARCHITECT, DEVREL"
    case EntityNotFound(entity, id) =>
      entity + " con ID " + DecimalString(id) + " no encontrado"
    case NoEnumConstant(enumType, name) =>
      "No enum constant com.ejerciciocopilot.model." + enumType + "." + name
    case NullEnumName(_) =>
      "Name is null"
  }

  /** The invalid-role message quotes the rejected token: different tokens give different messages. */
  lemma InvalidRoleMessageQuotesToken(t1: string, t2: string)
    requires Message(InvalidRole(t1)) == Message(InvalidRole(t2))
    ensures t1 == t2
  {
    var prefix := "Rol inválido: ";
    var m1, m2 := Message(InvalidRole(t1)), Message(InvalidRole(t2));
    assert |t1| == |t2|;
    assert m1[|prefix|..|prefix| + |t1|] == t1;
    assert m2[|prefix|..|prefix| + |t2|] == t2;
  }

  /** The not-found message names the entity and its id: another id of the same entity gives another message. */
  lemma NotFoundMessageNamesId(entity: string, i: int, j: int)
    requires Message(EntityNotFound(entity, i)) == Message(EntityNotFound(entity, j))
    ensures i == j
  {
    var m1, m2 := Message(EntityNotFound(entity, i)), Message(EntityNotFound(entity, j));
    var from := |entity + " con ID "|;
    assert |DecimalString(i)| == |DecimalString(j)|;
    assert m1[from..from + |DecimalString(i)|] == DecimalString(i);
    assert m2[from..from + |DecimalString(j)|] == DecimalString(j);
    DecimalStringInjective(i, j);
  }
}
