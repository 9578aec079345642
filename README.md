# Movie catalogue controllers: a Dafny model

This project models the logic that the movie API's two controllers own,
over an in-memory table:

- `PeliculasController`:
  - the filtered search `Filtrar`;
  - the index page `Get`, with the next five releases and five in-cinema movies;
  - the detail page `GetId`;
  - `Delete`;
  - the early rejections of `Patch`.
- `GenerosController`: the full update `Put` and `Delete` of a genre.

The movie table is a `seq<Pelicula>`. The index page takes five rows of a
query, and which five depends on an order the data store does not fix; the
model fixes it as the order of the sequence (see "## Left out"). A movie carries its
genre rows (genre ids) and its cast rows (actor, role, billing order `Orden`)
inside its record, so deleting a movie deletes its rows with it. The genre
table is a `map<int, Genero>` keyed by identifier.

"Today" (`DateTime.Today`) is the parameter `hoy`, a day number. Release
dates are day numbers. `string.Contains` is ordinal substring search over
`seq<char>`.

Files:

- `Wrappers.dfy`: `Option`, where `None` stands for `null`.
- `Entidades.dfy`: the records (`Pelicula`, `PeliculaActor`, `Genero`, `GeneroCreacionDTO`) and `ActionResult`.
- `Linq.dfy`: the LINQ operators the queries are built from (`Where`, `OrderBy`, `Take`, `FirstOrDefault`), as functions over sequences. It also holds the lemmas the controllers rely on: filters compose, and `OrderBy` is stable.
- `Peliculas.dfy`: the movie controller. Queries are functions of the table. `Filtrar` is a method that narrows the query one `Where` at a time, as the source does. `Delete` and `Patch` are methods of a class that holds the table.
- `Generos.dfy`: the genre controller, a class holding the genre map.

## Model

| member | source | states |
|---|---|---|
| `Linq.Where` | PeliculasApi/Controllers/PeliculasController.cs:37 | a filter yields no more rows than its input; which rows it yields is `WhereMiembros`, and how successive filters compose is `WhereWhere` |
| `Linq.WhereMiembros` | PeliculasApi/Controllers/PeliculasController.cs:63-82 | the filtered query holds exactly the rows of the input that satisfy the predicate: every row it yields is in the input and passes, and every input row that passes is yielded |
| `Linq.WhereWhere` | PeliculasApi/Controllers/PeliculasController.cs:59-83 | narrowing a query by one `Where` after another equals one `Where` by the conjunction of the predicates |
| `Linq.OrderBy` | PeliculasApi/Controllers/PeliculasController.cs:38 | the sorted rows are in ascending key order and are a permutation of the input |
| `Linq.OrderByEstable` | PeliculasApi/Controllers/PeliculasController.cs:106 | the sort is stable: the rows sharing one key keep their input order |
| `Linq.Take` | PeliculasApi/Controllers/PeliculasController.cs:39 | `Take(n)` yields a prefix of the query, of length n or of the whole query if it is shorter |
| `Linq.FirstOrDefault` | PeliculasApi/Controllers/PeliculasController.cs:96-99 | null exactly when no row matches; otherwise a matching row with no matching row before it |
| `Peliculas.Filtrar` | PeliculasApi/Controllers/PeliculasController.cs:59-83 | narrowing the query one `Where` per switched-on criterion, as the action does, yields the table filtered once by the whole search; `CriteriosDeLaBusqueda` states what that query holds |
| `Peliculas.CriteriosDeLaBusqueda` | PeliculasApi/Controllers/PeliculasController.cs:61-83 | the rows the combined filter keeps are exactly the table rows meeting every switched-on criterion; each switched-on criterion holds of every kept row, and with no criterion the whole table is kept |
| `Linq.TakeMinimos` | PeliculasApi/Controllers/PeliculasController.cs:38-39 | the first n rows of a sorted query have keys no larger than any row left out |
| `Peliculas.FiltroMasEstricto` | PeliculasApi/Controllers/PeliculasController.cs:61-83 | switching on more criteria only narrows the search: the stricter result is the looser result filtered again |
| `Peliculas.Get` | PeliculasApi/Controllers/PeliculasController.cs:32-45 | each list has at most 5 movies of the table. The upcoming list is a sub-multiset of the upcoming movies (no movie listed twice, none invented), all after today and sorted by release date. The in-cinema list holds only in-cinema movies: the first 5 of them in sequence order, or all of them when there are fewer |
| `Peliculas.FuturosEstrenosSonLosMasProximos` | PeliculasApi/Controllers/PeliculasController.cs:36-40 | the upcoming list holds min(5, number of upcoming movies) movies, and no upcoming movie left out is released before a listed one |
| `Peliculas.EmpatesEnOrdenDeTabla` | PeliculasApi/Controllers/PeliculasController.cs:36-40 | listed releases sharing a day are the first upcoming movies of that day, in sequence order (a tie order the model fixes) |
| `Peliculas.GetId` | PeliculasApi/Controllers/PeliculasController.cs:96-106 | NotFound exactly when no movie has the id; otherwise a movie with that id whose cast rows are sorted by `Orden` |
| `Peliculas.GetIdDevuelveLaPelicula` | PeliculasApi/Controllers/PeliculasController.cs:96-106 | with unique ids, the result is the stored movie with that id, with its cast rows only reordered (a permutation, all other fields equal) and ties in `Orden` kept in stored order |
| `Peliculas.QuitarPelicula` | PeliculasApi/Controllers/PeliculasController.cs:205-207 | removing an id from a table with unique ids removes exactly one movie if one has the id and none otherwise, and the ids stay unique |
| `Peliculas.PeliculasController.Delete` | PeliculasApi/Controllers/PeliculasController.cs:198-209 | NotFound with the table unchanged when the id is absent. Otherwise NoContent, and exactly the movie with that id is removed: the other movies stay in the same order, and ids stay unique |
| `Peliculas.PeliculasController.Patch` | PeliculasApi/Controllers/PeliculasController.cs:170-191 | a null document or a missing movie gives BadRequest. NoContent only when both are present and the patched projection validates. The table never changes |
| `Generos.Mapear` | PeliculasApi/Controllers/GenerosController.cs:46 | the genre mapped from a creation payload keeps the default identifier 0 and loses nothing of the payload: the payload is recovered from the genre's name |
| `Generos.GenerosController.Put` | PeliculasApi/Controllers/GenerosController.cs:46-54 | the genre under the route id becomes the record mapped from the payload, with the route id as its id. No old field is kept, every other genre is unchanged, and every genre stays stored under its own id |
| `Generos.GenerosController.Delete` | PeliculasApi/Controllers/GenerosController.cs:60-71 | NotFound with the table unchanged when no genre has the id. Otherwise NoContent, with exactly that genre removed and every other genre untouched |

## Left out

- Patch: the action validates a patched projection but never copies it back to the entity, so the model's table never changes on a patch; a missing movie is answered with BadRequest, as the action does.
- Peliculas.Get: the store's row order is unspecified (`Where(x => x.EnCines).Take(5)` has no ORDER BY), so which five in-cinema movies are listed is open in the source; the model fixes it as the first five in sequence order.
- Peliculas.EmpatesEnOrdenDeTabla: the order among same-day releases comes from a database ORDER BY, which breaks ties arbitrarily; the model fixes it with a stable sort over the sequence order. Only the in-memory sort of cast rows in `GetId` is stable in the source itself.
- Peliculas.Filtrar: the result's order is the sequence order; the store gives the filtered query no order, and the action has no runtime sort field.
- Pagination (`InsertarParametrosPaginacion`, `Paginar`): their code is not part of this model. `Filtrar` is modelled up to the filtered query, before paging, and the response header is not modelled.
- The AutoMapper projections to `PeliculaDTO` and `PeliculasDetallesDTO` are reflection-based and their profile is not part of this model. `Get`, `Filtrar` and `GetId` return the movie records themselves. The genre mapping is the field copy `Generos.Mapear`.
- Movie `Post` and `Put`: both store a poster through a file-storage service, which is I/O. `Put` also maps into a detached DTO and never changes the table, so there is no update to model.
- The body of movie `Patch`: applying a JSON Patch document and `TryValidateModel` belong to libraries outside this model. Their outcome is the parameter `proyeccionValida`.
- The genre `Get` and `Post` actions delegate to `CustomBaseController`, which is not part of this model.
- Generos.GenerosController.Put: requires the id to be in the table. For a missing id the failure comes from the data store, which is not modelled.
- The entity classes are not part of this model. Their fields are taken from the queries that use them. `Poster` and the actor and genre records behind the join rows are left out.
- Entity Framework's query translation, `Include`/`ThenInclude`, change tracking and asynchronous saving: the table is a value, and a save takes effect at once.
- Concurrency between requests (last write wins) is not modelled: each action runs alone.
- Culture-sensitive string comparison and clock time: titles are compared ordinally, and "today" is a parameter.
