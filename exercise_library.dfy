/** The exercise library (components/ExerciseLibrary.tsx): four fixed
    exercises, a search box, a category badge and an optional video link. */
module ExerciseLibrary {

  import opened Types
  import opened Seqs
  import opened Text

  const Catalog: seq<Exercise> := [
    Exercise("1", "Sentadilla en Pared", "Mantén la espalda apoyada y baja lentamente hasta formar 90º.",
             Fuerza, Some("https://www.youtube.com/results?search_query=wall+squat+physiotherapy"),
             "3 series de 10 reps"),
    Exercise("2", "Puente de Glúteo", "Eleva la cadera manteniendo el core firme y glúteos activos.",
             Fuerza, Some("https://www.youtube.com/results?search_query=glute+bridge+physiotherapy"),
             "2 series de 15 reps"),
    Exercise("3", "Estiramiento Isquio", "Tumbado boca arriba, utiliza una cincha para elevar la pierna.",
             Estiramiento, Some("https://www.youtube.com/results?search_query=hamstring+stretch+lying+down"),
             "30 segundos cada pierna"),
    Exercise("4", "Movilidad Escapular", "Rota los hombros suavemente hacia atrás disociando el cuello.",
             Movilidad, Some("https://www.youtube.com/results?search_query=scapular+mobility+exercises"),
             "10 rotaciones")
  ]

  /** The category as the source spells it. */
  function CategoryName(c: ExerciseCategory): (r: string)
    ensures r != []
  {
    match c
    case Movilidad => "Movilidad"
    case Fuerza => "Fuerza"
    case Estiramiento => "Estiramiento"
  }

  /** Title or category contain the term, ignoring case. */
  predicate Matches(ex: Exercise, term: string) {
    Contains(ToLower(ex.title), ToLower(term)) || Contains(ToLower(CategoryName(ex.category)), ToLower(term))
  }

  /** `filtered`. */
  function Filtered(term: string): (r: seq<Exercise>)
    ensures forall ex :: ex in r <==> ex in Catalog && Matches(ex, term)
    ensures SubSeq(r, Catalog)
    ensures forall ex :: multiset(r)[ex] == if Matches(ex, term) then multiset(Catalog)[ex] else 0
  {
    var keep := (ex: Exercise) => Matches(ex, term);
    FilterCounts(Catalog, keep);
    Filter(Catalog, keep)
  }

  /** An empty search shows the four exercises in order. */
  lemma EmptySearchShowsAll()
    ensures Filtered("") == Catalog
  {
    forall i | 0 <= i < |Catalog| ensures Matches(Catalog[i], "") {
      ContainsEmpty(ToLower(Catalog[i].title));
    }
    FilterAll(Catalog, (ex: Exercise) => Matches(ex, ""));
  }

  /** Searching for a category's name, in any case, lists every exercise of
      that category. */
  lemma CategorySearchFindsCategory(c: ExerciseCategory, term: string)
    requires ToLower(term) == ToLower(CategoryName(c))
    ensures forall ex :: ex in Catalog && ex.category == c ==> ex in Filtered(term)
  {
    var n := ToLower(CategoryName(c));
    assert StartsWith(n, n);
  }

  datatype BadgeColor = Orange | Purple | Blue

  /** The badge colour: orange for strength, purple for mobility, blue for
      anything else. */
  function Badge(c: ExerciseCategory): (r: BadgeColor)
    ensures r == Orange <==> c == Fuerza
    ensures r == Purple <==> c == Movilidad
    ensures r == Blue <==> c == Estiramiento
  {
    match c
    case Fuerza => Orange
    case Movilidad => Purple
    case Estiramiento => Blue
  }

  /** Each category has its own colour, and every colour is in use, so the
      badge tells the category. */
  lemma BadgeIdentifiesCategory(c: ExerciseCategory, d: ExerciseCategory, col: BadgeColor)
    ensures c != d ==> Badge(c) != Badge(d)
    ensures exists e :: Badge(e) == col
  {
    match col
    case Orange => assert Badge(Fuerza) == col;
    case Purple => assert Badge(Movilidad) == col;
    case Blue => assert Badge(Estiramiento) == col;
  }

  /** `ex.videoUrl && …`: the link is rendered for a present, non-empty URL. */
  predicate ShowsVideo(ex: Exercise) {
    ex.videoUrl.Some? && ex.videoUrl.value != ""
  }

  /** Every exercise of the library has a video link. */
  lemma CatalogShowsVideos()
    ensures forall ex :: ex in Catalog ==> ShowsVideo(ex)
  {
  }
}
