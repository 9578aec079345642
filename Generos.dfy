/**
 * The genre controller's full update and delete over the genre table, a
 * map from identifier to genre.
 */
module Generos {
  import opened Entidades

  /**
   * The mapping from the creation payload to a new genre: the name is
   * copied and the identifier keeps its default, 0.
   */
  function Mapear(dto: GeneroCreacionDTO): (r: Genero)
    ensures r.id == 0
    ensures GeneroCreacionDTO(r.nombre) == dto
  {
    Genero(0, dto.nombre)
  }

  /** Some genre of the table has identifier `id` (`AnyAsync(x => x.Id == id)`). */
  predicate ExisteGenero(generos: map<int, Genero>, id: int) {
    exists k :: k in generos && generos[k].id == id
  }

  class GenerosController {
    var generos: map<int, Genero>

    /** Every genre is stored under its own identifier. */
    ghost predicate Valid()
      reads this
    {
      forall k :: k in generos ==> generos[k].id == k
    }

    constructor (generos: map<int, Genero>)
      requires forall k :: k in generos ==> generos[k].id == k
      ensures Valid() && this.generos == generos
    {
      this.generos := generos;
    }

    /**
     * `Put`: a full replace of genre `id`. The new record is the one mapped
     * from the payload, with the identifier taken from the route, so no field
     * of the old record survives; every other genre is untouched. A genre
     * that does not exist is the store's failure, not modelled.
     */
    method Put(id: int, dto: GeneroCreacionDTO) returns (r: ActionResult<()>)
      requires Valid()
      requires id in generos
      modifies this
      ensures Valid()
      ensures r == NoContent
      ensures generos.Keys == old(generos).Keys
      ensures generos[id] == Genero(id, dto.nombre)
      ensures forall k :: k in generos && k != id ==> generos[k] == old(generos)[k]
    {
      var entidad := Mapear(dto);
      entidad := entidad.(id := id);
      generos := generos[id := entidad];
      r := NoContent;
    }

    /**
     * `Delete`: NotFound, with the table untouched, when no genre has
     * identifier `id`; otherwise that genre leaves the table and every other
     * genre stays as it was.
     */
    method Delete(id: int) returns (r: ActionResult<()>)
      requires Valid()
      modifies this
      ensures Valid()
      ensures r == NotFound || r == NoContent
      ensures r == NotFound <==> id !in old(generos)
      ensures r == NotFound ==> generos == old(generos)
      ensures r == NoContent ==> generos == old(generos) - {id}
    {
      var existe := ExisteGenero(generos, id);
      if !existe {
        return NotFound;
      }
      generos := generos - {id};
      r := NoContent;
    }
  }
}
