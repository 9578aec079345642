/**
 * The movie controller: the filtered search, the index page with its two
 * top-five lists, the detail page, and the delete and patch actions over
 * the movie table. "Today" is the parameter `hoy`, a day number.
 */
module Peliculas {
  import opened Wrappers
  import opened Linq
  import opened Entidades

  /** How many movies each list of the index page shows (`top`). */
  const Top: nat := 5

  function Min(a: int, b: int): int {
    if a <= b then a else b
  }

  // ---------------------------------------------------------------------
  // Filtered search
  // ---------------------------------------------------------------------

  /**
   * The search criteria; `titulo == None` stands for a null string and
   * `generoId == 0` for "no genre". The paging fields are not modelled.
   */
  datatype FiltroPeliculasDTO = FiltroPeliculasDTO(
    titulo: Option<string>,
    enCines: bool,
    proximosEstrenos: bool,
    generoId: int)

  /** The search with every criterion switched off. */
  const SinFiltro := FiltroPeliculasDTO(None, false, false, 0)

  predicate IsNullOrEmpty(s: Option<string>) {
    s.None? || s.value == []
  }

  /** Ordinal `string.Contains`: `sub` occurs in `s` at some position. */
  predicate Contiene(s: string, sub: string) {
    exists i :: 0 <= i <= |s| && OcurreEn(s, sub, i)
  }

  /** `sub` occurs in `s` starting at position `i`. */
  predicate OcurreEn(s: string, sub: string, i: nat) {
    i + |sub| <= |s| && s[i..i + |sub|] == sub
  }

  function ContieneTitulo(titulo: string): Pelicula -> bool {
    (p: Pelicula) => Contiene(p.titulo, titulo)
  }

  predicate EstaEnCines(p: Pelicula) {
    p.enCines
  }

  function EstrenaDespuesDe(hoy: int): Pelicula -> bool {
    (p: Pelicula) => p.fechaEstreno > hoy
  }

  function TieneGenero(generoId: int): Pelicula -> bool {
    (p: Pelicula) => generoId in p.generos
  }

  /** No criterion of the search is switched on. */
  predicate SinCriterios(filtro: FiltroPeliculasDTO) {
    IsNullOrEmpty(filtro.titulo) && !filtro.enCines && !filtro.proximosEstrenos && filtro.generoId == 0
  }

  /**
   * A movie meets the search when it meets every criterion the search
   * switches on; a criterion that is off restricts nothing.
   */
  predicate Admite(filtro: FiltroPeliculasDTO, hoy: int, p: Pelicula) {
    && (IsNullOrEmpty(filtro.titulo) || Contiene(p.titulo, filtro.titulo.value))
    && (!filtro.enCines || p.enCines)
    && (!filtro.proximosEstrenos || p.fechaEstreno > hoy)
    && (filtro.generoId == 0 || filtro.generoId in p.generos)
  }

  function Admision(filtro: FiltroPeliculasDTO, hoy: int): Pelicula -> bool {
    (p: Pelicula) => Admite(filtro, hoy, p)
  }

  /**
   * `Filtrar` before paging: starting from the whole table, each criterion
   * that is switched on narrows the query with one more `Where`. The result
   * is the table filtered once by the whole search, `Admision(filtro, hoy)`;
   * what that query holds is `CriteriosDeLaBusqueda`. The ghost `parcial`
   * is the part of the search applied so far.
   */
  method Filtrar(peliculas: seq<Pelicula>, filtro: FiltroPeliculasDTO, hoy: int) returns (consulta: seq<Pelicula>)
    ensures consulta == Where(peliculas, Admision(filtro, hoy))
  {
    consulta := peliculas;
    ghost var parcial := SinFiltro;
    WhereTodos(peliculas, Admision(parcial, hoy));

    ghost var siguiente := parcial.(titulo := filtro.titulo);
    if !IsNullOrEmpty(filtro.titulo) {
      var criterio := ContieneTitulo(filtro.titulo.value);
      WhereWhere(peliculas, Admision(parcial, hoy), criterio, Admision(siguiente, hoy));
      consulta := Where(consulta, criterio);
    } else {
      WhereExt(peliculas, Admision(parcial, hoy), Admision(siguiente, hoy));
    }
    parcial := siguiente;
    assert consulta == Where(peliculas, Admision(parcial, hoy));

    siguiente := parcial.(enCines := filtro.enCines);
    if filtro.enCines {
      WhereWhere(peliculas, Admision(parcial, hoy), EstaEnCines, Admision(siguiente, hoy));
      consulta := Where(consulta, EstaEnCines);
    }
    parcial := siguiente;
    assert consulta == Where(peliculas, Admision(parcial, hoy));

    siguiente := parcial.(proximosEstrenos := filtro.proximosEstrenos);
    if filtro.proximosEstrenos {
      var criterio := EstrenaDespuesDe(hoy);
      WhereWhere(peliculas, Admision(parcial, hoy), criterio, Admision(siguiente, hoy));
      consulta := Where(consulta, criterio);
    }
    parcial := siguiente;
    assert consulta == Where(peliculas, Admision(parcial, hoy));

    siguiente := parcial.(generoId := filtro.generoId);
    if filtro.generoId != 0 {
      var criterio := TieneGenero(filtro.generoId);
      WhereWhere(peliculas, Admision(parcial, hoy), criterio, Admision(siguiente, hoy));
      consulta := Where(consulta, criterio);
    }
    parcial := siguiente;
    assert parcial == filtro;
  }

  /** What the search's result `Where(peliculas, Admision(filtro, hoy))` holds, criterion by criterion. */
  lemma CriteriosDeLaBusqueda(peliculas: seq<Pelicula>, filtro: FiltroPeliculasDTO, hoy: int)
    ensures var r := Where(peliculas, Admision(filtro, hoy));
      && (forall x :: x in r ==> x in peliculas && Admite(filtro, hoy, x))
      && (forall x :: x in peliculas && Admite(filtro, hoy, x) ==> x in r)
      && (!IsNullOrEmpty(filtro.titulo) ==> forall x :: x in r ==> Contiene(x.titulo, filtro.titulo.value))
      && (filtro.enCines ==> forall x :: x in r ==> x.enCines)
      && (filtro.proximosEstrenos ==> forall x :: x in r ==> x.fechaEstreno > hoy)
      && (filtro.generoId != 0 ==> forall x :: x in r ==> filtro.generoId in x.generos)
      && (SinCriterios(filtro) ==> r == peliculas)
  {
    WhereMiembros(peliculas, Admision(filtro, hoy));
    if SinCriterios(filtro) {
      WhereTodos(peliculas, Admision(filtro, hoy));
    }
  }

  /**
   * Every criterion switched on in `amplio` is switched on in `estricto`
   * with the same value.
   */
  predicate Refina(estricto: FiltroPeliculasDTO, amplio: FiltroPeliculasDTO) {
    && (!IsNullOrEmpty(amplio.titulo) ==> estricto.titulo == amplio.titulo)
    && (amplio.enCines ==> estricto.enCines)
    && (amplio.proximosEstrenos ==> estricto.proximosEstrenos)
    && (amplio.generoId != 0 ==> estricto.generoId == amplio.generoId)
  }

  /**
   * Switching on more criteria only narrows the search: the stricter search
   * is the looser one's result filtered again by the stricter one.
   */
  lemma FiltroMasEstricto(peliculas: seq<Pelicula>, estricto: FiltroPeliculasDTO, amplio: FiltroPeliculasDTO, hoy: int)
    requires Refina(estricto, amplio)
    ensures Where(peliculas, Admision(estricto, hoy))
         == Where(Where(peliculas, Admision(amplio, hoy)), Admision(estricto, hoy))
  {
    WhereWhere(peliculas, Admision(amplio, hoy), Admision(estricto, hoy), Admision(estricto, hoy));
  }

  // ---------------------------------------------------------------------
  // Index page
  // ---------------------------------------------------------------------

  datatype PeliculasIndiceDTO = PeliculasIndiceDTO(futurosEstrenos: seq<Pelicula>, enCines: seq<Pelicula>)

  function FechaEstreno(p: Pelicula): int {
    p.fechaEstreno
  }

  /** The movies of the table released after `hoy`, in sequence order. */
  function ProximosEstrenos(peliculas: seq<Pelicula>, hoy: int): seq<Pelicula> {
    Where(peliculas, EstrenaDespuesDe(hoy))
  }

  /**
   * The index page: the next `Top` releases after `hoy`, earliest first, and
   * the first `Top` movies of the sequence that are in cinemas (the store
   * leaves this order open; the model fixes it as the sequence order).
   */
  function Get(peliculas: seq<Pelicula>, hoy: int): (r: PeliculasIndiceDTO)
    ensures |r.futurosEstrenos| <= Top && |r.enCines| <= Top
    ensures forall x :: x in r.futurosEstrenos ==> x in peliculas && x.fechaEstreno > hoy
    ensures Ordenada(r.futurosEstrenos, FechaEstreno)
    ensures multiset(r.futurosEstrenos) <= multiset(ProximosEstrenos(peliculas, hoy))
    ensures forall x :: x in r.enCines ==> x in peliculas && x.enCines
    ensures r.enCines <= Where(peliculas, EstaEnCines)
    ensures |r.enCines| == Min(Top, |Where(peliculas, EstaEnCines)|)
  {
    var proximos := OrderBy(ProximosEstrenos(peliculas, hoy), FechaEstreno);
    MismosElementos(proximos, ProximosEstrenos(peliculas, hoy));
    WhereMiembros(peliculas, EstrenaDespuesDe(hoy));
    WhereMiembros(peliculas, EstaEnCines);
    TakeOrdenada(proximos, Top, FechaEstreno);
    PeliculasIndiceDTO(Take(proximos, Top), Take(Where(peliculas, EstaEnCines), Top))
  }

  /**
   * The upcoming list holds as many releases as there are, up to `Top`, and
   * they are the earliest: an upcoming movie left out is released no earlier
   * than any listed one.
   */
  lemma FuturosEstrenosSonLosMasProximos(peliculas: seq<Pelicula>, hoy: int)
    ensures |Get(peliculas, hoy).futurosEstrenos| == Min(Top, |ProximosEstrenos(peliculas, hoy)|)
    ensures forall x, y ::
      (x in ProximosEstrenos(peliculas, hoy) && x !in Get(peliculas, hoy).futurosEstrenos &&
       y in Get(peliculas, hoy).futurosEstrenos) ==> y.fechaEstreno <= x.fechaEstreno
  {
    var prox := ProximosEstrenos(peliculas, hoy);
    var orden := OrderBy(prox, FechaEstreno);
    var r := Get(peliculas, hoy).futurosEstrenos;
    assert r == Take(orden, Top);
    assert |orden| == |multiset(orden)| == |multiset(prox)| == |prox|;
    MismosElementos(prox, orden);
    TakeMinimos(orden, Top, FechaEstreno);
  }

  /**
   * Among the listed releases of one day, the order is the sequence's: they
   * are the first upcoming movies of that day in sequence order. The store
   * leaves this tie order open; the model's stable sort fixes it.
   */
  lemma EmpatesEnOrdenDeTabla(peliculas: seq<Pelicula>, hoy: int, dia: int)
    ensures Where(Get(peliculas, hoy).futurosEstrenos, ConClave(FechaEstreno, dia))
         <= Where(ProximosEstrenos(peliculas, hoy), ConClave(FechaEstreno, dia))
  {
    var prox := ProximosEstrenos(peliculas, hoy);
    var orden := OrderBy(prox, FechaEstreno);
    var r := Get(peliculas, hoy).futurosEstrenos;
    assert r == orden[..|r|];
    WherePrefijo(orden, |r|, ConClave(FechaEstreno, dia));
    OrderByEstable(prox, FechaEstreno, dia);
  }

  // ---------------------------------------------------------------------
  // Detail page
  // ---------------------------------------------------------------------

  function Orden(a: PeliculaActor): int {
    a.orden
  }

  function ConId(id: int): Pelicula -> bool {
    (p: Pelicula) => p.id == id
  }

  /**
   * `GetId`: NotFound when no movie has identifier `id`; otherwise the first
   * such movie with its cast rows sorted by billing order.
   */
  function GetId(peliculas: seq<Pelicula>, id: int): (r: ActionResult<Pelicula>)
    ensures r.Ok? || r.NotFound?
    ensures r.NotFound? <==> !Existe(peliculas, id)
    ensures r.Ok? ==> r.valor.id == id && Ordenada(r.valor.actores, Orden)
  {
    match FirstOrDefault(peliculas, ConId(id))
    case None => NotFound
    case Some(p) => Ok(p.(actores := OrderBy(p.actores, Orden)))
  }

  /** `despues` is `antes` with its cast rows reordered and nothing else changed. */
  ghost predicate SoloReordenaActores(antes: Pelicula, despues: Pelicula) {
    despues.(actores := antes.actores) == antes && multiset(despues.actores) == multiset(antes.actores)
  }

  /**
   * With identifiers unique, `GetId` returns the stored movie with that
   * identifier, its cast rows only reordered, and rows of equal billing
   * order kept in stored order.
   */
  lemma GetIdDevuelveLaPelicula(peliculas: seq<Pelicula>, id: int, k: nat, orden: int)
    requires IdsUnicos(peliculas)
    requires k < |peliculas| && peliculas[k].id == id
    ensures GetId(peliculas, id).Ok?
    ensures SoloReordenaActores(peliculas[k], GetId(peliculas, id).valor)
    ensures Where(GetId(peliculas, id).valor.actores, ConClave(Orden, orden))
         == Where(peliculas[k].actores, ConClave(Orden, orden))
  {
    var m :| 0 <= m < |peliculas| && peliculas[m] == FirstOrDefault(peliculas, ConId(id)).value
      && ConId(id)(peliculas[m]);
    assert ConId(id)(peliculas[m]) == (peliculas[m].id == id);
    assert m == k;
    OrderByEstable(peliculas[k].actores, Orden, orden);
  }

  // ---------------------------------------------------------------------
  // Delete and patch over the movie table
  // ---------------------------------------------------------------------

  function SinId(id: int): Pelicula -> bool {
    (p: Pelicula) => p.id != id
  }

  /** The rest of a table with unique identifiers has unique identifiers, none of them the first one's. */
  lemma IdsUnicosCola(peliculas: seq<Pelicula>)
    requires IdsUnicos(peliculas) && peliculas != []
    ensures IdsUnicos(peliculas[1..])
    ensures forall x :: x in peliculas[1..] ==> x.id != peliculas[0].id
  {
    var resto := peliculas[1..];
    forall i, j | 0 <= i < j < |resto| ensures resto[i].id != resto[j].id {
      assert resto[i] == peliculas[i + 1] && resto[j] == peliculas[j + 1];
    }
    forall x | x in resto ensures x.id != peliculas[0].id {
      var j :| 0 <= j < |resto| && resto[j] == x;
      assert peliculas[j + 1] == x;
    }
  }

  /** A movie whose identifier differs from the rest's, followed by a table with unique identifiers. */
  lemma IdsUnicosCons(x: Pelicula, resto: seq<Pelicula>)
    requires IdsUnicos(resto)
    requires forall y :: y in resto ==> y.id != x.id
    ensures IdsUnicos([x] + resto)
  {
    var r := [x] + resto;
    forall i, j | 0 <= i < j < |r| ensures r[i].id != r[j].id {
      assert r[j] == resto[j - 1] && resto[j - 1] in resto;
      if i > 0 {
        assert r[i] == resto[i - 1];
      }
    }
  }

  lemma ExisteCola(peliculas: seq<Pelicula>, id: int)
    requires peliculas != []
    ensures Existe(peliculas, id) == (peliculas[0].id == id || Existe(peliculas[1..], id))
  {
    var resto := peliculas[1..];
    if Existe(peliculas, id) && peliculas[0].id != id {
      var k :| 0 <= k < |peliculas| && peliculas[k].id == id;
      assert resto[k - 1].id == id;
    }
    if Existe(resto, id) {
      var k :| 0 <= k < |resto| && resto[k].id == id;
      assert peliculas[k + 1].id == id;
    }
  }

  /**
   * Removing identifier `id` from a table with unique identifiers removes
   * exactly one movie when one has that identifier and none otherwise, and
   * keeps identifiers unique.
   */
  lemma {:induction false} QuitarPelicula(peliculas: seq<Pelicula>, id: int)
    requires IdsUnicos(peliculas)
    ensures IdsUnicos(Where(peliculas, SinId(id)))
    ensures |Where(peliculas, SinId(id))| == if Existe(peliculas, id) then |peliculas| - 1 else |peliculas|
  {
    if peliculas != [] {
      var resto := peliculas[1..];
      var q := Where(resto, SinId(id));
      IdsUnicosCola(peliculas);
      QuitarPelicula(resto, id);
      WhereMiembros(resto, SinId(id));
      ExisteCola(peliculas, id);
      WhereCabeza(peliculas, SinId(id));
      WhereUno(peliculas[0], SinId(id));
      if peliculas[0].id == id {
        WhereTodos(resto, SinId(id));
      } else {
        IdsUnicosCons(peliculas[0], q);
      }
    }
  }

  /** One operation of a JSON Patch document. */
  datatype OperacionPatch = OperacionPatch(op: string, path: string, value: string)

  /** The movie controller over its table; identifiers are the primary key. */
  class PeliculasController {
    var peliculas: seq<Pelicula>

    ghost predicate Valid()
      reads this
    {
      IdsUnicos(peliculas)
    }

    constructor (peliculas: seq<Pelicula>)
      requires IdsUnicos(peliculas)
      ensures Valid() && this.peliculas == peliculas
    {
      this.peliculas := peliculas;
    }

    /**
     * `Delete`: NotFound, with the table untouched, when no movie has
     * identifier `id`; otherwise the movie with that identifier, and its cast
     * and genre rows with it, leaves the table and every other movie stays,
     * in the same order.
     */
    method Delete(id: int) returns (r: ActionResult<()>)
      requires Valid()
      modifies this
      ensures Valid()
      ensures r == NotFound <==> !Existe(old(peliculas), id)
      ensures r == NotFound ==> peliculas == old(peliculas)
      ensures r != NotFound ==> r == NoContent
      ensures r == NoContent ==> peliculas == Where(old(peliculas), SinId(id))
      ensures r == NoContent ==> |peliculas| == |old(peliculas)| - 1
      ensures forall x :: x in peliculas <==> x in old(peliculas) && (r == NotFound || x.id != id)
    {
      var existe := Existe(peliculas, id);
      if !existe {
        return NotFound;
      }
      QuitarPelicula(peliculas, id);
      WhereMiembros(peliculas, SinId(id));
      peliculas := Where(peliculas, SinId(id));
      r := NoContent;
    }

    /**
     * The checks `Patch` makes before touching the movie: a null document or
     * a missing movie is a BadRequest. After them the source validates a
     * patched projection that it never copies back, so the table is never
     * changed; `proyeccionValida` is the outcome of that validation.
     */
    method Patch(id: int, documento: Option<seq<OperacionPatch>>, proyeccionValida: bool) returns (r: ActionResult<()>)
      ensures documento.None? ==> r == BadRequest
      ensures !Existe(peliculas, id) ==> r == BadRequest
      ensures r == NoContent <==> documento.Some? && Existe(peliculas, id) && proyeccionValida
      ensures r == NoContent || r == BadRequest
    {
      if documento.None? {
        return BadRequest;
      }
      var existe := Existe(peliculas, id);
      if !existe {
        return BadRequest;
      }
      if !proyeccionValida {
        return BadRequest;
      }
      r := NoContent;
    }
  }
}
