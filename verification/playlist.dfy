/** A playlist as the service describes it: built from a data dictionary,
    with a few optional fields read back normalised. */
module Playlists {
  import opened Wrappers
  import opened PyValues
  import opened Exceptions

  datatype Playlist = Playlist(
    image: PyValue,
    internalName: PyValue,
    specialBorder: PyValue,
    kind: PyValue,
    violator: PyValue,
    displaySubname: PyValue,
    description: PyValue)

  /** `data.get(key)`. */
  function Field(data: seq<(string, PyValue)>, key: string): PyValue {
    DictGet(data, key).GetOr(PyNone)
  }

  /** `Playlist(data)`: `image` and `playlist_name` must be present (in that
      order, a missing one raises `KeyError`); every other field is `None`
      when missing. */
  function NewPlaylist(data: seq<(string, PyValue)>): (r: Result<Playlist, Exc>)
    ensures r.Err? <==> DictGet(data, "image").None? || DictGet(data, "playlist_name").None?
    ensures DictGet(data, "image").None? ==> r == Err(KeyError("image"))
    ensures DictGet(data, "image").Some? && DictGet(data, "playlist_name").None? ==>
      r == Err(KeyError("playlist_name"))
    ensures r.Ok? ==>
      Some(r.value.image) == DictGet(data, "image") &&
      Some(r.value.internalName) == DictGet(data, "playlist_name")
    ensures r.Ok? && DictGet(data, "special_border").None? ==> r.value.specialBorder == PyNone
    ensures r.Ok? && DictGet(data, "_type").None? ==> r.value.kind == PyNone
    ensures r.Ok? && DictGet(data, "violator").None? ==> r.value.violator == PyNone
    ensures r.Ok? && DictGet(data, "display_subname").None? ==> r.value.displaySubname == PyNone
    ensures r.Ok? && DictGet(data, "description").None? ==> r.value.description == PyNone
    ensures r.Ok? && DictGet(data, "special_border").Some? ==>
      r.value.specialBorder == DictGet(data, "special_border").value
    ensures r.Ok? && DictGet(data, "_type").Some? ==> r.value.kind == DictGet(data, "_type").value
    ensures r.Ok? && DictGet(data, "violator").Some? ==> r.value.violator == DictGet(data, "violator").value
    ensures r.Ok? && DictGet(data, "display_subname").Some? ==>
      r.value.displaySubname == DictGet(data, "display_subname").value
    ensures r.Ok? && DictGet(data, "description").Some? ==>
      r.value.description == DictGet(data, "description").value
  {
    match (DictGet(data, "image"), DictGet(data, "playlist_name"))
    case (None, _) => Err(KeyError("image"))
    case (Some(_), None) => Err(KeyError("playlist_name"))
    case (Some(image), Some(name)) =>
      Ok(Playlist(image, name, Field(data, "special_border"), Field(data, "_type"),
                  Field(data, "violator"), Field(data, "display_subname"), Field(data, "description")))
  }

  /** `special_border`: the text "None" reads as none. */
  function SpecialBorder(p: Playlist): (r: PyValue)
    ensures r != PyStr("None")
    ensures r == PyNone <==> p.specialBorder == PyNone || p.specialBorder == PyStr("None")
    ensures r != PyNone ==> r == p.specialBorder
  {
    if p.specialBorder == PyStr("None") then PyNone else p.specialBorder
  }

  /** `violator`: the empty text reads as none. */
  function Violator(p: Playlist): (r: PyValue)
    ensures r != PyStr("")
    ensures r == PyNone <==> p.violator == PyNone || p.violator == PyStr("")
    ensures r != PyNone ==> r == p.violator
  {
    if p.violator == PyStr("") then PyNone else p.violator
  }

  /** Reading a normalised field back through the same rule changes
      nothing. */
  lemma NormaliseIdempotent(p: Playlist)
    ensures SpecialBorder(p.(specialBorder := SpecialBorder(p))) == SpecialBorder(p)
    ensures Violator(p.(violator := Violator(p))) == Violator(p)
  {
  }

  /** `p == q`: the internal names agree. */
  predicate Equal(p: Playlist, q: Playlist) {
    p.internalName == q.internalName
  }

  /** `p != q`. */
  predicate NotEqual(p: Playlist, q: Playlist) {
    !Equal(p, q)
  }

  /** `str(p)`: the internal name, which must be text. */
  function ToStr(p: Playlist): (r: Result<string, Exc>)
    ensures r.Ok? <==> p.internalName.PyStr?
    ensures r.Ok? ==> r.value == p.internalName.s
  {
    if p.internalName.PyStr? then Ok(p.internalName.s)
    else Err(TypeError("__str__ returned non-string"))
  }

  /** Equality is an equivalence that ignores every field but the internal
      name, `!=` is its negation, and for text names two playlists are equal
      exactly when they print the same. */
  lemma EqualityLaws(p: Playlist, q: Playlist, r: Playlist)
    ensures Equal(p, p)
    ensures Equal(p, q) ==> Equal(q, p)
    ensures Equal(p, q) && Equal(q, r) ==> Equal(p, r)
    ensures NotEqual(p, q) <==> !Equal(p, q)
    ensures Equal(p, p.(image := q.image, specialBorder := q.specialBorder, kind := q.kind,
                        violator := q.violator, displaySubname := q.displaySubname,
                        description := q.description))
    ensures p.internalName.PyStr? && q.internalName.PyStr? ==> (Equal(p, q) <==> ToStr(p) == ToStr(q))
  {
  }

  /** Two playlists built from data with the same `playlist_name` are
      equal. */
  lemma SameNameEqual(d1: seq<(string, PyValue)>, d2: seq<(string, PyValue)>)
    requires NewPlaylist(d1).Ok? && NewPlaylist(d2).Ok?
    requires DictGet(d1, "playlist_name") == DictGet(d2, "playlist_name")
    ensures Equal(NewPlaylist(d1).value, NewPlaylist(d2).value)
  {
  }
}
