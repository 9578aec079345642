/**
 * The persisted records the controllers read and write, as values, and the
 * action results they answer with.
 */
module Entidades {

  /** One row of a movie's cast (PeliculasActores): the actor, the role and the billing order. */
  datatype PeliculaActor = PeliculaActor(actorId: int, personaje: string, orden: int)

  /**
   * A movie. `fechaEstreno` is the release date as a day number; `generos`
   * holds the GeneroId of each PeliculasGeneros row; `actores` holds the
   * PeliculasActores rows in stored order.
   */
  datatype Pelicula = Pelicula(
    id: int,
    titulo: string,
    enCines: bool,
    fechaEstreno: int,
    generos: seq<int>,
    actores: seq<PeliculaActor>)

  datatype Genero = Genero(id: int, nombre: string)

  /** The payload of a genre creation or full update. */
  datatype GeneroCreacionDTO = GeneroCreacionDTO(nombre: string)

  /** The outcome of a controller action: a value (200), 204, 404 or 400. */
  datatype ActionResult<T> = Ok(valor: T) | NoContent | NotFound | BadRequest

  /** No two movies of the table share an identifier (the primary key). */
  predicate IdsUnicos(peliculas: seq<Pelicula>) {
    forall i, j :: 0 <= i < j < |peliculas| ==> peliculas[i].id != peliculas[j].id
  }

  /** Some movie of the table has identifier `id` (`AnyAsync(x => x.Id == id)`). */
  predicate Existe(peliculas: seq<Pelicula>, id: int) {
    exists k :: 0 <= k < |peliculas| && peliculas[k].id == id
  }
}
