/** The record model of the activity journal: the five storage tables, the
    shape of one activity row once it has been fetched and tagged with its
    table, and the counting helpers every view is built from. */
module Records {

  datatype Option<+T> = None | Some(value: T)

  /** The five storage tables; a row's `categoria_id` is the table it came from. */
  datatype Category = Libros | Peliculas | Deporte | Conciertos | Ocio

  /** The tables in the fixed order the dashboard lists them. */
  const TABLES: seq<Category> := [Libros, Peliculas, Deporte, Conciertos, Ocio]

  /** The table name, as stored in `categoria_id`. */
  function TableName(c: Category): string
  {
    match c
    case Libros => "libros"
    case Peliculas => "peliculas"
    case Deporte => "deporte"
    case Conciertos => "conciertos"
    case Ocio => "ocio"
  }

  /** A month index as returned by `Date.getMonth()`: 0 is January. */
  type Month = m: int | 0 <= m < 12

  /** A parsed `fecha`: milliseconds since the epoch and the month index. */
  datatype Stamp = Stamp(ms: int, month: Month)

  /** One activity row. Every table's columns are present; a column the row's
      table does not use holds "" (or [] / None), which is what the source's
      truthiness tests see for a missing column. `date` is None when `fecha`
      does not parse, and `duracion` is None when the duration is not a number,
      null or absent. */
  datatype Record = Record(
    id: int,
    categoria: Category,
    fecha: string,
    date: Option<Stamp>,
    titulo: string,
    tipoDeporte: string,
    cantante: string,
    tipoOcio: string,
    etiquetas: seq<string>,
    duracion: Option<int>,
    valoracion: int,
    descripcion: string)

  /** Number of rows of table `c` in `rs`. */
  function CountCategory(rs: seq<Record>, c: Category): (n: nat)
    ensures n <= |rs|
    ensures n == 0 <==> forall i :: 0 <= i < |rs| ==> rs[i].categoria != c
  {
    if |rs| == 0 then 0
    else (if rs[0].categoria == c then 1 else 0) + CountCategory(rs[1..], c)
  }

  /** Counting distributes over concatenation. */
  lemma {:induction false} CountCategoryAppend(a: seq<Record>, b: seq<Record>, c: Category)
    ensures CountCategory(a + b, c) == CountCategory(a, c) + CountCategory(b, c)
  {
    if |a| == 0 {
      assert a + b == b;
    } else {
      assert (a + b)[1..] == a[1..] + b;
      CountCategoryAppend(a[1..], b, c);
    }
  }

  /** Every row belongs to exactly one of the five tables, so the five
      counts add up to the length. */
  lemma {:induction false} CountsAddUp(rs: seq<Record>)
    ensures CountCategory(rs, Libros) + CountCategory(rs, Peliculas) + CountCategory(rs, Deporte)
            + CountCategory(rs, Conciertos) + CountCategory(rs, Ocio) == |rs|
  {
    if |rs| > 0 {
      CountsAddUp(rs[1..]);
    }
  }
}
