/** The built-in data of the tool: the default category list and the seed
    question set used when no catalog question is visible. */
module Seed {
  import opened Options
  import opened Types
  import opened Seqs

  const DefaultCategories: seq<string> :=
    ["JavaScript", "TypeScript", "Angular", "HTML", "CSS", "Live Coding"]

  /** A seed question: an id, a category, the question and the model answer;
      no difficulty, privacy flag or owner. */
  function SeedQuestion(id: string, category: string, question: string, correctAnswer: string): Question {
    Question(id, category, question, correctAnswer, None, None, None)
  }

  const SeedQuestions: seq<Question> := [
    SeedQuestion("js1", "JavaScript",
      "Czym jest Event Loop w JavaScript?",
      "Mechanizm zarządzający asynchronicznością, który monitoruje stos wywołań (Call Stack) i kolejkę zadań (Callback Queue)."),
    SeedQuestion("js2", "JavaScript",
      "Co to jest closure (domknięcie)?",
      "Funkcja mająca dostęp do zmiennych ze swojego zakresu leksykalnego, nawet po tym jak funkcja zewnętrzna zakończyła działanie."),
    SeedQuestion("js3", "JavaScript",
      "Różnica między == a ===?",
      "== porównuje wartości po dokonaniu niejawnej konwersji typów, === porównuje wartość i typ."),
    SeedQuestion("ts1", "TypeScript",
      "Co to są Generics w TypeScript?",
      "Sposób na tworzenie komponentów wielokrotnego użytku, które pracują z różnymi typami, zachowując przy tym bezpieczeństwo typowania."),
    SeedQuestion("ts2", "TypeScript",
      "Różnica między interface a type?",
      "Interface służy głównie do definiowania kształtu obiektów i może być rozszerzany (declaration merging), type jest bardziej wszechstronny (aliasy, unie, tuple)."),
    SeedQuestion("ang1", "Angular",
      "Czym są sygnały (Signals) w Angularze?",
      "Nowy system reaktywności wprowadzony w v16, pozwalający na drobnoziarniste śledzenie zmian stanu bez polegania wyłącznie na Zone.js."),
    SeedQuestion("ang2", "Angular",
      "Opisz cykl życia komponentu w Angularze.",
      "Główne hooki: ngOnInit, ngOnChanges, ngDoCheck, ngAfterViewInit, ngOnDestroy."),
    SeedQuestion("ang3", "Angular",
      "Co to jest Dependency Injection?",
      "Wzorzec projektowy polegający na wstrzykiwaniu zależności do klasy zamiast tworzenia ich wewnątrz niej. Zwiększa modularność i testowalność."),
    SeedQuestion("html1", "HTML",
      "Co to jest semantyka w HTML?",
      "Używanie tagów zgodnie z ich znaceniem (np. <nav>, <header>, <article>), co poprawia dostępność i SEO."),
    SeedQuestion("css1", "CSS",
      "Różnica między Flexbox a Grid?",
      "Flexbox jest jednowymiarowy (wiersz lub kolumna), Grid jest dwuwymiarowy (wiersze i kolumny jednocześnie)."),
    SeedQuestion("lc1", "Live Coding",
      "Napisz funkcję odwracającą stringa.",
      "Np. str.split(\"\").reverse().join(\"\") lub pętla for."),
    SeedQuestion("lc2", "Live Coding",
      "Zaimplementuj prosty filtr listy obiektów.",
      "Użycie metody .filter() na tablicy.")
  ]

  /** The default category list names each category once. */
  lemma DefaultCategoriesDistinct()
    ensures NoDuplicates(DefaultCategories)
  {
  }

  /** Seed questions have pairwise distinct ids, so scores against them never
      confuse two seed questions. */
  lemma SeedIdsDistinct()
    ensures forall i, j :: 0 <= i < j < |SeedQuestions| ==> SeedQuestions[i].id != SeedQuestions[j].id
  {
  }

  /** Every seed question is filed under a default category, and the seed set
      is not empty. */
  lemma SeedCategoriesKnown()
    ensures |SeedQuestions| > 0
    ensures forall q :: q in SeedQuestions ==> q.category in DefaultCategories
  {
  }

  /** Every default category holds at least one seed question. */
  lemma DefaultCategoriesCovered()
    ensures forall c :: c in DefaultCategories ==> exists q :: q in SeedQuestions && q.category == c
  {
    assert SeedQuestions[0].category == "JavaScript";
    assert SeedQuestions[3].category == "TypeScript";
    assert SeedQuestions[5].category == "Angular";
    assert SeedQuestions[8].category == "HTML";
    assert SeedQuestions[9].category == "CSS";
    assert SeedQuestions[10].category == "Live Coding";
  }
}
