/**
 * The persistence wrapper (utilities/databaseClient.js): subject normalisation,
 * find-or-create of a category by name, and saving a quiz under the category
 * of its subject. The two collections are held in memory by a `Store`.
 */
module DatabaseClient {
  import opened Wrappers
  import opened Text

  // ---------------------------------------------------------------------------
  // formatString
  // ---------------------------------------------------------------------------

  /** One word: its first character upper-cased, the rest lower-cased; the empty word stays empty. */
  function FormatWord(w: string): string
  {
    if w == [] then [] else [ToUpper(w[0])] + LowerAll(w[1..])
  }

  function FormatWords(ws: seq<string>): (r: seq<string>)
    ensures |r| == |ws|
  {
    seq(|ws|, i requires 0 <= i < |ws| => FormatWord(ws[i]))
  }

  /** `formatString`: split on single spaces, format each word, join with single spaces. */
  function FormatString(s: string): string
  {
    Join(FormatWords(Split(s, ' ')), ' ')
  }

  /**
   * The same transform stated character by character, as the reference for
   * FormatString: a character that starts the string or follows a space is
   * upper-cased, every other character is lower-cased.
   */
  function Capitalised(s: string): string
  {
    seq(|s|, i requires 0 <= i < |s| => if i == 0 || s[i - 1] == ' ' then ToUpper(s[i]) else ToLower(s[i]))
  }

  /** On a word without spaces the reference agrees with FormatWord. */
  lemma CapitalisedWord(w: string)
    requires ' ' !in w
    ensures Capitalised(w) == FormatWord(w)
  {
    if w != [] {
      forall i | 0 <= i < |w| ensures Capitalised(w)[i] == FormatWord(w)[i] {
        if i > 0 {
          assert w[i - 1] in w;
        }
      }
    }
  }

  /** The reference splits at a space. */
  lemma CapitalisedAtSpace(a: string, b: string)
    ensures Capitalised(a + " " + b) == Capitalised(a) + " " + Capitalised(b)
  {
    var s := a + " " + b;
    var r := Capitalised(a) + " " + Capitalised(b);
    forall i | 0 <= i < |s| ensures Capitalised(s)[i] == r[i] {
      CaseMapFacts(s[i]);
      if i > |a| + 1 {
        assert s[i - 1] == b[i - |a| - 2];
      }
    }
  }

  /** Joining formatted pieces agrees with the reference on the joined string. */
  lemma {:induction false} JoinFormatWords(ws: seq<string>)
    requires |ws| >= 1
    requires forall w :: w in ws ==> ' ' !in w
    ensures Join(FormatWords(ws), ' ') == Capitalised(Join(ws, ' '))
  {
    assert ws[0] in ws;
    CapitalisedWord(ws[0]);
    if |ws| > 1 {
      forall w | w in ws[1..] ensures ' ' !in w {
        assert w in ws;
      }
      JoinFormatWords(ws[1..]);
      assert FormatWords(ws)[1..] == FormatWords(ws[1..]);
      CapitalisedAtSpace(ws[0], Join(ws[1..], ' '));
    }
  }

  /** formatString, read character by character, is the reference transform. */
  lemma FormatStringIsCapitalised(s: string)
    ensures FormatString(s) == Capitalised(s)
  {
    JoinSplit(s, ' ');
    JoinFormatWords(Split(s, ' '));
  }

  /** formatString keeps the length, and every space in its place. */
  lemma FormatStringShape(s: string)
    ensures |FormatString(s)| == |s|
    ensures forall i :: 0 <= i < |s| ==> (FormatString(s)[i] == ' ' <==> s[i] == ' ')
  {
    FormatStringIsCapitalised(s);
    forall i | 0 <= i < |s| ensures Capitalised(s)[i] == ' ' <==> s[i] == ' ' {
      CaseMapFacts(s[i]);
    }
  }

  /** A formatted word holds no space when the word holds none. */
  lemma FormatWordNoSpace(w: string)
    requires ' ' !in w
    ensures ' ' !in FormatWord(w)
  {
    CapitalisedWord(w);
    forall i | 0 <= i < |w| ensures Capitalised(w)[i] != ' ' {
      CaseMapFacts(w[i]);
    }
  }

  /** Two characters with the same lower-case form have the same upper-case form, and are both spaces or neither. */
  lemma SameLowerCase(a: char, b: char)
    requires ToLower(a) == ToLower(b)
    ensures ToUpper(a) == ToUpper(b)
    ensures a == ' ' <==> b == ' '
  {
  }

  /** formatString's words are the input's words formatted one by one: same number, same order. */
  lemma FormatStringWords(s: string)
    ensures Split(FormatString(s), ' ') == FormatWords(Split(s, ' '))
    ensures |Split(FormatString(s), ' ')| == |Split(s, ' ')|
  {
    var ws := Split(s, ' ');
    var fs := FormatWords(ws);
    forall w | w in fs ensures ' ' !in w {
      var i :| 0 <= i < |fs| && fs[i] == w;
      assert ws[i] in ws;
      FormatWordNoSpace(ws[i]);
    }
    SplitJoin(fs, ' ');
  }

  /** Capitalising twice agrees with capitalising once, at each position. */
  lemma CapitalisedStableAt(s: string, i: int)
    requires 0 <= i < |s|
    ensures Capitalised(Capitalised(s))[i] == Capitalised(s)[i]
  {
    CaseMapFacts(s[i]);
    if i > 0 {
      CaseMapFacts(s[i - 1]);
    }
  }

  /** formatString is idempotent: an already formatted subject is unchanged. */
  lemma FormatStringIdempotent(s: string)
    ensures FormatString(FormatString(s)) == FormatString(s)
  {
    var t := FormatString(s);
    FormatStringIsCapitalised(s);
    FormatStringIsCapitalised(t);
    forall i | 0 <= i < |t| ensures Capitalised(t)[i] == t[i] {
      CapitalisedStableAt(s, i);
    }
  }

  // ---------------------------------------------------------------------------
  // Categories and quizzes
  // ---------------------------------------------------------------------------

  /** One element of a quiz's opaque `questionObjects` array, as its JSON text. */
  type QuestionObject = string

  /** A category document; `id` stands for its `_id`. `numQuizzes` defaults to 0. */
  datatype Category = Category(id: nat, name: string, numQuizzes: int)

  datatype Quiz = Quiz(categoryId: nat, title: string, questionObjects: seq<QuestionObject>)

  /** `Category.findOne({name})`: the position of the first category with that name. */
  function FindByName(cats: seq<Category>, name: string): (r: Option<nat>)
    ensures r.Some? ==> r.value < |cats| && cats[r.value].name == name &&
                        forall j :: 0 <= j < r.value ==> cats[j].name != name
    ensures r.None? <==> forall j :: 0 <= j < |cats| ==> cats[j].name != name
  {
    if cats == [] then None
    else if cats[0].name == name then Some(0)
    else
      match FindByName(cats[1..], name)
      case None => None
      case Some(i) => Some(i + 1)
  }

  /**
   * The Category schema declares `name` with `required: true`; Mongoose's
   * required validator rejects the empty string, so such a category is never saved.
   */
  predicate ValidName(name: string)
  {
    name != ""
  }

  /**
   * The category that findCategory returns: the one found, or the one it
   * creates. `None` is the `undefined` it returns when `save()` rejects an
   * empty name and the error is caught.
   */
  function Found(cats: seq<Category>, name: string): Option<Category>
  {
    match FindByName(cats, name)
    case Some(i) => Some(cats[i])
    case None => if ValidName(name) then Some(Category(|cats|, name, 0)) else None
  }

  /** The categories after findCategory: one new category appended when none has the name and the name is valid. */
  function AfterFind(cats: seq<Category>, name: string): seq<Category>
  {
    if FindByName(cats, name).Some? || !ValidName(name) then cats else cats + [Category(|cats|, name, 0)]
  }

  /** No two categories share a name. */
  ghost predicate UniqueNames(cats: seq<Category>)
  {
    forall i, j :: 0 <= i < j < |cats| ==> cats[i].name != cats[j].name
  }

  /**
   * What the store keeps true: ids are positions, counters stay 0, names are
   * non-empty and unique, quizzes point at categories.
   */
  ghost predicate WellFormed(cats: seq<Category>, quizzes: seq<Quiz>)
  {
    && (forall i :: 0 <= i < |cats| ==> cats[i].id == i && cats[i].numQuizzes == 0 && ValidName(cats[i].name))
    && UniqueNames(cats)
    && (forall k :: 0 <= k < |quizzes| ==> quizzes[k].categoryId < |cats|)
  }

  /**
   * findCategory: an existing category leaves the store as it is and is
   * returned; otherwise exactly one category with that name and a zero
   * counter is appended and returned, unless the name is empty, in which
   * case nothing is written and nothing is returned.
   */
  lemma FindCategorySpec(cats: seq<Category>, name: string)
    ensures Found(cats, name).Some? ==>
              Found(cats, name).value.name == name && Found(cats, name).value in AfterFind(cats, name)
    ensures (exists j :: 0 <= j < |cats| && cats[j].name == name) ==>
              AfterFind(cats, name) == cats && Found(cats, name).Some? && Found(cats, name).value in cats
    ensures (forall j :: 0 <= j < |cats| ==> cats[j].name != name) && name != "" ==>
              AfterFind(cats, name) == cats + [Category(|cats|, name, 0)] &&
              Found(cats, name) == Some(Category(|cats|, name, 0))
    ensures (forall j :: 0 <= j < |cats| ==> cats[j].name != name) && name == "" ==>
              AfterFind(cats, name) == cats && Found(cats, name) == None
  {
    var c' := AfterFind(cats, name);
    if FindByName(cats, name).None? && name != "" {
      assert c'[|cats|] == Category(|cats|, name, 0);
    }
  }

  /** A second findCategory with the same name creates nothing and returns the same category. */
  lemma AfterFindIdempotent(cats: seq<Category>, name: string)
    ensures AfterFind(AfterFind(cats, name), name) == AfterFind(cats, name)
    ensures Found(AfterFind(cats, name), name) == Found(cats, name)
  {
    if FindByName(cats, name).None? && name != "" {
      var c' := AfterFind(cats, name);
      assert c'[|cats|].name == name;
      assert FindByName(c', name) == Some(|cats|);
    }
  }

  /**
   * findCategory keeps the store well formed; in a well-formed store it
   * returns nothing exactly for the empty name, and what it returns has counter 0.
   */
  lemma AfterFindWellFormed(cats: seq<Category>, quizzes: seq<Quiz>, name: string)
    requires WellFormed(cats, quizzes)
    ensures WellFormed(AfterFind(cats, name), quizzes)
    ensures Found(cats, name).None? <==> name == ""
    ensures Found(cats, name).Some? ==>
              Found(cats, name).value.id < |AfterFind(cats, name)| && Found(cats, name).value.numQuizzes == 0
  {
    if name == "" {
      assert FindByName(cats, name).None?;
    }
  }

  /**
   * The quiz saveQuiz writes: under the category of the formatted subject,
   * titled "<subject> - <numQuizzes>"; `None` when there is no category, as
   * `category._id` then throws and nothing is saved.
   */
  function NewQuiz(cats: seq<Category>, subject: string, questions: seq<QuestionObject>): Option<Quiz>
  {
    var formatted := FormatString(subject);
    match Found(cats, formatted)
    case None => None
    case Some(category) => Some(Quiz(category.id, formatted + " - " + IntToString(category.numQuizzes), questions))
  }

  /** Only the empty subject formats to the empty name. */
  lemma FormatStringEmpty(s: string)
    ensures FormatString(s) == "" <==> s == ""
  {
    FormatStringShape(s);
  }

  /**
   * In a well-formed store a quiz is written exactly when the subject is not
   * empty. Since nothing increments `numQuizzes`, it is titled
   * "<formatted subject> - 0", so repeated saves under one subject share their
   * title and their category.
   */
  lemma RepeatedSavesShareTitle(cats: seq<Category>, quizzes: seq<Quiz>, subject: string,
                                first: seq<QuestionObject>, second: seq<QuestionObject>)
    requires WellFormed(cats, quizzes)
    ensures NewQuiz(cats, subject, first).Some? <==> subject != ""
    ensures NewQuiz(cats, subject, first).Some? ==>
              NewQuiz(cats, subject, first).value.title == FormatString(subject) + " - 0"
    ensures var after := AfterFind(cats, FormatString(subject));
            NewQuiz(after, subject, second).Some? == NewQuiz(cats, subject, first).Some? &&
            (NewQuiz(cats, subject, first).Some? ==>
               NewQuiz(after, subject, second).value.title == NewQuiz(cats, subject, first).value.title &&
               NewQuiz(after, subject, second).value.categoryId == NewQuiz(cats, subject, first).value.categoryId)
  {
    FormatStringEmpty(subject);
    AfterFindIdempotent(cats, FormatString(subject));
    AfterFindWellFormed(cats, quizzes, FormatString(subject));
  }

  /** A subject and its formatted form are saved alike. */
  lemma SubjectsByFormattedName(cats: seq<Category>, subject: string, questions: seq<QuestionObject>)
    ensures NewQuiz(cats, FormatString(subject), questions) == NewQuiz(cats, subject, questions)
  {
    FormatStringIdempotent(subject);
  }

  /** Subjects that differ only in letter case format to the same string. */
  lemma FormatStringCaseInsensitive(s1: string, s2: string)
    requires |s1| == |s2|
    requires forall i :: 0 <= i < |s1| ==> ToLower(s1[i]) == ToLower(s2[i])
    ensures FormatString(s1) == FormatString(s2)
  {
    FormatStringIsCapitalised(s1);
    FormatStringIsCapitalised(s2);
    forall i | 0 <= i < |s1| ensures Capitalised(s1)[i] == Capitalised(s2)[i] {
      SameLowerCase(s1[i], s2[i]);
      if i > 0 {
        SameLowerCase(s1[i - 1], s2[i - 1]);
      }
    }
  }

  /** Subjects that differ only in letter case are saved under the same category with the same title. */
  lemma CaseVariantsShareCategory(cats: seq<Category>, s1: string, s2: string, questions: seq<QuestionObject>)
    requires |s1| == |s2|
    requires forall i :: 0 <= i < |s1| ==> ToLower(s1[i]) == ToLower(s2[i])
    ensures NewQuiz(cats, s1, questions) == NewQuiz(cats, s2, questions)
  {
    FormatStringCaseInsensitive(s1, s2);
  }

  /** The store holds the two collections; each operation runs as one atomic step. */
  class Store {
    var categories: seq<Category>
    var quizzes: seq<Quiz>

    ghost predicate Valid()
      reads this
    {
      WellFormed(categories, quizzes)
    }

    constructor ()
      ensures Valid() && categories == [] && quizzes == []
    {
      categories := [];
      quizzes := [];
    }

    /**
     * findCategory(subject): find the category with that name, or create it
     * with a zero counter; `None` when the empty name fails validation.
     */
    method FindCategory(subject: string) returns (category: Option<Category>)
      requires Valid()
      modifies this
      ensures Valid()
      ensures categories == AfterFind(old(categories), subject) && quizzes == old(quizzes)
      ensures category == Found(old(categories), subject)
      ensures category.None? <==> subject == ""
      ensures category.None? ==> categories == old(categories)
      ensures category.Some? ==>
                category.value.name == subject && category.value in categories && category.value.numQuizzes == 0
      ensures |old(categories)| <= |categories| <= |old(categories)| + 1
    {
      FindCategorySpec(categories, subject);
      AfterFindWellFormed(categories, quizzes, subject);
      var found := FindByName(categories, subject);
      if found.Some? {
        category := Some(categories[found.value]);
      } else if subject == "" {
        category := None;
      } else {
        var newCategory := Category(|categories|, subject, 0);
        categories := categories + [newCategory];
        category := Some(newCategory);
      }
    }

    /**
     * saveQuiz(subject, questions): format the subject, find or create its
     * category, append one quiz; an empty subject writes nothing.
     */
    method SaveQuiz(subject: string, questions: seq<QuestionObject>)
      requires Valid()
      modifies this
      ensures Valid()
      ensures categories == AfterFind(old(categories), FormatString(subject))
      ensures subject == "" ==> categories == old(categories) && quizzes == old(quizzes)
      ensures subject != "" ==>
                NewQuiz(old(categories), subject, questions).Some? &&
                quizzes == old(quizzes) + [NewQuiz(old(categories), subject, questions).value] &&
                quizzes[|quizzes| - 1].categoryId == Found(old(categories), FormatString(subject)).value.id &&
                quizzes[|quizzes| - 1].title == FormatString(subject) + " - 0"
      ensures forall i :: 0 <= i < |categories| ==> categories[i].numQuizzes == 0
    {
      RepeatedSavesShareTitle(categories, quizzes, subject, questions, questions);
      FormatStringEmpty(subject);
      var formattedSubject := FormatString(subject);
      var category := FindCategory(formattedSubject);
      if category.None? {
        return;
      }
      var c := category.value;
      var newQuiz := Quiz(c.id, formattedSubject + " - " + IntToString(c.numQuizzes), questions);
      quizzes := quizzes + [newQuiz];
    }
  }
}
