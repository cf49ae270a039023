/** Request-body validation of the users API: the `validate_<field>` hooks of the serializers and
    the list-field checks that run before them. A validator either returns its input unchanged
    (`Some`) or raises a validation error (`None`), which the views answer with status 400. */
module Serializer {
  import opened Wrappers

  /** Python's `str.isspace()`: the characters `str.strip()` removes. */
  predicate IsSpace(c: char)
  {
    c in {'\U{9}', '\U{A}', '\U{B}', '\U{C}', '\U{D}', '\U{1C}', '\U{1D}', '\U{1E}',
          '\U{1F}', '\U{20}', '\U{85}', '\U{A0}', '\U{1680}', '\U{2000}', '\U{2001}', '\U{2002}',
          '\U{2003}', '\U{2004}', '\U{2005}', '\U{2006}', '\U{2007}', '\U{2008}', '\U{2009}', '\U{200A}',
          '\U{2028}', '\U{2029}', '\U{202F}', '\U{205F}', '\U{3000}'}
  }

  /** Every character is whitespace (this includes the empty string). */
  predicate Blank(s: string)
  {
    forall i :: 0 <= i < |s| ==> IsSpace(s[i])
  }

  function StripLeft(s: string): string
    decreases |s|
  {
    if s != [] && IsSpace(s[0]) then StripLeft(s[1..]) else s
  }

  function StripRight(s: string): string
    decreases |s|
  {
    if s != [] && IsSpace(s[|s| - 1]) then StripRight(s[..|s| - 1]) else s
  }

  /** `str.strip()`. */
  function Strip(s: string): string
  {
    StripRight(StripLeft(s))
  }

  lemma {:induction false} StripLeftBlank(s: string)
    ensures Blank(StripLeft(s)) <==> Blank(s)
    decreases |s|
  {
    if s != [] && IsSpace(s[0]) {
      StripLeftBlank(s[1..]);
      assert Blank(s) <==> Blank(s[1..]) by {
        assert forall i :: 1 <= i < |s| ==> s[i] == s[1..][i - 1];
      }
    }
  }

  lemma {:induction false} StripRightEmpty(s: string)
    ensures StripRight(s) == [] <==> Blank(s)
    decreases |s|
  {
    if s != [] && IsSpace(s[|s| - 1]) {
      StripRightEmpty(s[..|s| - 1]);
    }
  }

  /** `s.strip()` is empty exactly when `s` holds nothing but whitespace. */
  lemma StripEmptyIffBlank(s: string)
    ensures Strip(s) == [] <==> Blank(s)
  {
    StripLeftBlank(s);
    StripRightEmpty(StripLeft(s));
  }

  /** `UsuarioSerializer.validate_nombre`: refuses an empty or whitespace-only name and
      returns any other name unchanged. */
  function ValidateNombre(value: string): (r: Option<string>)
    ensures r.Some? <==> exists i :: 0 <= i < |value| && !IsSpace(value[i])
    ensures r.Some? ==> r.value == value
  {
    StripEmptyIffBlank(value);
    if value == [] || Strip(value) == [] then None else Some(value)
  }

  /** One entry of the `users` list: a JSON object, of which only `nombre` matters. */
  datatype UserEntry = UserEntry(nombre: Option<string>)

  /** `usuario.get("nombre")` is truthy: present and not the empty string. */
  predicate HasNombre(u: UserEntry)
  {
    u.nombre.Some? && u.nombre.value != []
  }

  /** `ListaUsuariosSerializer.validate_users`: refuses an empty list, or a list with an entry
      lacking a truthy `nombre`; returns any other list unchanged. */
  function ValidateUsers(value: seq<UserEntry>): (r: Option<seq<UserEntry>>)
    ensures r.Some? <==> |value| > 0 && forall i :: 0 <= i < |value| ==> HasNombre(value[i])
    ensures r.Some? ==> r.value == value
  {
    if |value| == 0 then None
    else if exists u :: u in value && !HasNombre(u) then None
    else Some(value)
  }

  /** `CantantesFavoritosSerializer.validate_cantantes_favoritos`: refuses an empty list of
      singers and returns any other list unchanged. */
  function ValidateCantantesFavoritos(value: seq<string>): (r: Option<seq<string>>)
    ensures r.Some? <==> |value| > 0
    ensures r.Some? ==> r.value == value
  {
    if |value| == 0 then None else Some(value)
  }

  /** `CancionesFavoritasSerializer.validate_canciones_favoritas`: refuses an empty list of
      songs and returns any other list unchanged. */
  function ValidateCancionesFavoritas(value: seq<string>): (r: Option<seq<string>>)
    ensures r.Some? <==> |value| > 0
    ensures r.Some? ==> r.value == value
  {
    if |value| == 0 then None else Some(value)
  }

  /** A list field of the request body as it arrives: missing, something other than a list, or a list. */
  datatype ListField<T> = Missing | NotAList | List(items: seq<T>)

  /** `is_valid()` of a serializer whose one field is `ListField(allow_empty=False)` followed by
      its `validate_` hook: the field must be present, be a list, be non-empty, and pass the hook. */
  function ListBody<T>(field: ListField<T>, hook: seq<T> -> Option<seq<T>>): Option<seq<T>>
  {
    match field
    case Missing => None
    case NotAList => None
    case List(items) => if |items| == 0 then None else hook(items)
  }

  /** `ListaUsuariosSerializer(data=...).is_valid()` and its validated `users`. */
  function UsersBody(field: ListField<UserEntry>): (r: Option<seq<UserEntry>>)
    ensures r.Some? <==> field.List? && |field.items| > 0 &&
                         forall i :: 0 <= i < |field.items| ==> HasNombre(field.items[i])
    ensures r.Some? ==> r.value == field.items
  {
    ListBody(field, ValidateUsers)
  }

  /** `CantantesFavoritosSerializer(data=...).is_valid()` and its validated `cantantes_favoritos`. */
  function CantantesBody(field: ListField<string>): (r: Option<seq<string>>)
    ensures r.Some? <==> field.List? && |field.items| > 0
    ensures r.Some? ==> r.value == field.items
  {
    ListBody(field, ValidateCantantesFavoritos)
  }

  /** `CancionesFavoritasSerializer(data=...).is_valid()` and its validated `canciones_favoritas`. */
  function CancionesBody(field: ListField<string>): (r: Option<seq<string>>)
    ensures r.Some? <==> field.List? && |field.items| > 0
    ensures r.Some? ==> r.value == field.items
  {
    ListBody(field, ValidateCancionesFavoritas)
  }
}
