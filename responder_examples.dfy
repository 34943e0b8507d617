/**
  Worked queries for the local responder, proved over the letters each query uses, so that
  no keyword has to be searched for in the literal text.
 */
module ResponderExamples {
  import opened Text
  import opened Facts
  import opened Responder
  import opened ResponderProperties

  /** The letters of "full stack". */
  const FullStackAlphabet: set<char> := {'f', 'u', 'l', 's', 't', 'a', 'c', 'k', '-', ' '}

  /** The letters of "i want a full". */
  const WantFullAlphabet: set<char> := {'i', 'w', 'a', 'n', 't', 'f', 'u', 'l', ' '}

  /** The letters of "stack developer". */
  const StackDeveloperAlphabet: set<char> := {'s', 't', 'a', 'c', 'k', 'd', 'e', 'v', 'l', 'o', 'p', 'r', ' '}

  /** The letters of "how can i contact him?". */
  const ContactQuestionAlphabet: set<char> := {'h', 'o', 'w', 'c', 'a', 'n', 'i', 't', 'm', '?', ' '}

  /** The letters of "what is your favorite color". */
  const FavoriteColorAlphabet: set<char> := {'w', 'h', 'a', 't', 'i', 's', 'y', 'o', 'u', 'r', 'f', 'v', 'e', 'c', 'l', ' '}

  /** Over an alphabet missing a letter of "skill" and a letter of "tech", no skills keyword
      occurs: "technical" and "technology" both begin with "tech". */
  lemma SkillsNeedLetters(q: string, letters: set<char>, a: char, b: char)
    requires forall x :: x in q ==> x in letters
    requires a in "skill" && a !in letters && b in "tech" && b !in letters
    ensures !Contains(q, "skill") && !Contains(q, "tech")
    ensures !Contains(q, "technical") && !Contains(q, "technology")
    ensures !Matches(Skills, q)
  {
    assert a !in q && b !in q;
    assert "technical"[..4] == "tech" && "technology"[..4] == "tech";
    MentionsAnyFour(q, "skill", "technical", "technology", "tech");
    LacksCharacter(q, "skill", a);
    LacksCharacter(q, "technical", b);
    LacksCharacter(q, "technology", b);
    LacksCharacter(q, "tech", b);
  }

  /** Over an alphabet missing a letter of each projects keyword, no projects keyword occurs. */
  lemma ProjectsNeedLetters(q: string, letters: set<char>, a: char, b: char, c: char, d: char)
    requires forall x :: x in q ==> x in letters
    requires a in "project" && a !in letters && b in "work" && b !in letters
    requires c in "build" && c !in letters && d in "develop" && d !in letters
    ensures !Matches(Projects, q)
  {
    assert a !in q && b !in q && c !in q && d !in q;
    MentionsAnyFour(q, "project", "work", "build", "develop");
    LacksCharacter(q, "project", a);
    LacksCharacter(q, "work", b);
    LacksCharacter(q, "build", c);
    LacksCharacter(q, "develop", d);
  }

  /** Over an alphabet missing a letter of each education keyword, no education keyword occurs. */
  lemma EducationNeedsLetters(q: string, letters: set<char>, a: char, b: char, c: char, d: char, e: char)
    requires forall x :: x in q ==> x in letters
    requires a in "education" && a !in letters && b in "study" && b !in letters
    requires c in "university" && c !in letters && d in "college" && d !in letters
    requires e in "degree" && e !in letters
    ensures !Matches(Education, q)
  {
    assert a !in q && b !in q && c !in q && d !in q && e !in q;
    MentionsAnyFive(q, "education", "study", "university", "college", "degree");
    LacksCharacter(q, "education", a);
    LacksCharacter(q, "study", b);
    LacksCharacter(q, "university", c);
    LacksCharacter(q, "college", d);
    LacksCharacter(q, "degree", e);
  }

  /** Over an alphabet missing a letter of each contact keyword, no contact keyword occurs. */
  lemma ContactNeedsLetters(q: string, letters: set<char>, a: char, b: char, c: char, d: char, e: char)
    requires forall x :: x in q ==> x in letters
    requires a in "contact" && a !in letters && b in "reach" && b !in letters
    requires c in "email" && c !in letters && d in "phone" && d !in letters
    requires e in "hire" && e !in letters
    ensures !Matches(Contact, q)
  {
    assert a !in q && b !in q && c !in q && d !in q && e !in q;
    MentionsAnyFive(q, "contact", "reach", "email", "phone", "hire");
    LacksCharacter(q, "contact", a);
    LacksCharacter(q, "reach", b);
    LacksCharacter(q, "email", c);
    LacksCharacter(q, "phone", d);
    LacksCharacter(q, "hire", e);
  }

  /** Over an alphabet missing a letter of each MERN keyword, no MERN keyword occurs. */
  lemma MernNeedsLetters(q: string, letters: set<char>, a: char, b: char, c: char, d: char, e: char)
    requires forall x :: x in q ==> x in letters
    requires a in "mern" && a !in letters && b in "mongo" && b !in letters
    requires c in "react" && c !in letters && d in "express" && d !in letters
    requires e in "node" && e !in letters
    ensures !Matches(Mern, q)
  {
    assert a !in q && b !in q && c !in q && d !in q && e !in q;
    MentionsAnyFive(q, "mern", "mongo", "react", "express", "node");
    LacksCharacter(q, "mern", a);
    LacksCharacter(q, "mongo", b);
    LacksCharacter(q, "react", c);
    LacksCharacter(q, "express", d);
    LacksCharacter(q, "node", e);
  }

  /** Over an alphabet missing a letter of "python", the python keyword does not occur. */
  lemma PythonNeedsLetters(q: string, letters: set<char>, a: char)
    requires forall x :: x in q ==> x in letters
    requires a in "python" && a !in letters
    ensures !Matches(Python, q)
  {
    assert a !in q;
    MentionsAnyOne(q, "python");
    LacksCharacter(q, "python", a);
  }

  /** Over an alphabet missing a letter of each experience keyword, no experience keyword occurs. */
  lemma ExperienceNeedsLetters(q: string, letters: set<char>, a: char, b: char, c: char)
    requires forall x :: x in q ==> x in letters
    requires a in "experience" && a !in letters && b in "background" && b !in letters
    requires c in "about" && c !in letters
    ensures !Matches(Experience, q)
  {
    assert a !in q && b !in q && c !in q;
    MentionsAnyThree(q, "experience", "background", "about");
    LacksCharacter(q, "experience", a);
    LacksCharacter(q, "background", b);
    LacksCharacter(q, "about", c);
  }

  /** Over the letters of "what is your favorite color" no keyword of the projects, education,
      python or experience rules occurs, and neither does "stack". */
  lemma FavoriteColorLettersLackWholeRules(q: string)
    requires forall x :: x in q ==> x in FavoriteColorAlphabet
    ensures !Matches(Projects, q) && !Matches(Education, q)
    ensures !Matches(Python, q) && !Matches(Experience, q)
    ensures !Contains(q, "stack")
  {
    ProjectsNeedLetters(q, FavoriteColorAlphabet, 'p', 'k', 'b', 'd');
    EducationNeedsLetters(q, FavoriteColorAlphabet, 'd', 'd', 'n', 'g', 'd');
    PythonNeedsLetters(q, FavoriteColorAlphabet, 'p');
    ExperienceNeedsLetters(q, FavoriteColorAlphabet, 'x', 'b', 'b');
    LacksCharacter(q, "stack", 'k');
  }

  /** Over the letters of "what is your favorite color" the skills keywords other than "tech" do
      not occur; "tech" is ruled out word by word in `FavoriteColorSplitWords`. */
  lemma FavoriteColorLettersLackSkills(q: string)
    requires forall x :: x in q ==> x in FavoriteColorAlphabet
    ensures !Contains(q, "skill")
    ensures !Contains(q, "technical")
    ensures !Contains(q, "technology")
  {
    assert 'k' !in q && 'n' !in q;
    LacksCharacter(q, "skill", 'k');
    LacksCharacter(q, "technical", 'n');
    LacksCharacter(q, "technology", 'n');
  }

  /** Over the letters of "what is your favorite color" the contact keywords other than "reach"
      and "hire" do not occur. */
  lemma FavoriteColorLettersLackContact(q: string)
    requires forall x :: x in q ==> x in FavoriteColorAlphabet
    ensures !Contains(q, "contact")
    ensures !Contains(q, "email")
    ensures !Contains(q, "phone")
  {
    assert 'n' !in q && 'm' !in q && 'p' !in q;
    LacksCharacter(q, "contact", 'n');
    LacksCharacter(q, "email", 'm');
    LacksCharacter(q, "phone", 'p');
  }

  /** Over the letters of "what is your favorite color" the MERN keywords other than "react" do
      not occur. */
  lemma FavoriteColorLettersLackMern(q: string)
    requires forall x :: x in q ==> x in FavoriteColorAlphabet
    ensures !Contains(q, "mern")
    ensures !Contains(q, "mongo")
    ensures !Contains(q, "express")
    ensures !Contains(q, "node")
  {
    assert 'm' !in q && 'x' !in q && 'n' !in q;
    LacksCharacter(q, "mern", 'm');
    LacksCharacter(q, "mongo", 'm');
    LacksCharacter(q, "express", 'x');
    LacksCharacter(q, "node", 'n');
  }

  /** A query over the letters of "full stack" gets the full-stack answer when it names both
      words, and the default answer otherwise. */
  lemma FullStackLetters(q: string)
    requires forall x :: x in q ==> x in FullStackAlphabet
    ensures Classify(q) == if Contains(q, "full") && Contains(q, "stack") then FullStack else Default
  {
    SkillsNeedLetters(q, FullStackAlphabet, 'i', 'e');
    ProjectsNeedLetters(q, FullStackAlphabet, 'p', 'w', 'b', 'd');
    EducationNeedsLetters(q, FullStackAlphabet, 'e', 'd', 'n', 'o', 'd');
    ContactNeedsLetters(q, FullStackAlphabet, 'o', 'r', 'e', 'p', 'h');
    MernNeedsLetters(q, FullStackAlphabet, 'm', 'm', 'r', 'e', 'n');
    PythonNeedsLetters(q, FullStackAlphabet, 'p');
    ExperienceNeedsLetters(q, FullStackAlphabet, 'e', 'b', 'b');
    FullStackRuleIsFullAndStack(q);
  }

  /** A query that lower-cases to "full stack" gets the full-stack answer. */
  lemma FullSpaceStackAnswer(query: string, f: FactBase, w: Wording)
    requires ToLower(query) == "full" + " " + "stack"
    ensures Respond(query, f, w) == w.fullStack
  {
    var q := ToLower(query);
    FullStackLetters(q);
    ContainsFromOccurrence(q, "full", 0);
    ContainsFromOccurrence(q, "stack", 5);
  }

  /** A query that lower-cases to "fullstack" gets the full-stack answer. */
  lemma FullStackJoinedAnswer(query: string, f: FactBase, w: Wording)
    requires ToLower(query) == "full" + "stack"
    ensures Respond(query, f, w) == w.fullStack
  {
    var q := ToLower(query);
    FullStackLetters(q);
    ContainsFromOccurrence(q, "full", 0);
    ContainsFromOccurrence(q, "stack", 4);
  }

  /** "Full Stack", with a space, reaches the full-stack rule. */
  lemma FullStackSpacedQuery(f: FactBase, w: Wording)
    ensures Respond("Full Stack", f, w) == w.fullStack
  {
    FullSpaceStackAnswer("Full Stack", f, w);
  }

  /** "fullstack", written as one word, reaches the full-stack rule too. */
  lemma FullStackJoinedQuery(f: FactBase, w: Wording)
    ensures Respond("fullstack", f, w) == w.fullStack
  {
    FullStackJoinedAnswer("fullstack", f, w);
  }

  /** A query that lower-cases to "full" alone falls through to the default answer. */
  lemma FullAloneAnswer(query: string, f: FactBase, w: Wording)
    requires ToLower(query) == "full"
    ensures Respond(query, f, w) == w.onboarding
  {
    FullStackLetters(ToLower(query));
    LacksCharacter(ToLower(query), "stack", 's');
  }

  /** "Full" without "stack" falls through to the default answer. */
  lemma FullAlone(f: FactBase, w: Wording)
    ensures Respond("Full", f, w) == w.onboarding
  {
    FullAloneAnswer("Full", f, w);
  }

  /** A query made of a part over the letters of "i want a full", a space and a part over the
      letters of "stack developer" that names "develop" is answered by the projects rule. */
  lemma FullStackDeveloper(a: string, b: string)
    requires forall x :: x in a ==> x in WantFullAlphabet
    requires forall x :: x in b ==> x in StackDeveloperAlphabet
    requires Contains(b, "develop")
    ensures Classify(a + " " + b) == Projects
  {
    var q := a + " " + b;
    SkillsNeedLetters(a, WantFullAlphabet, 's', 'e');
    SkillsNeedLetters(b, StackDeveloperAlphabet, 'i', 'h');
    ContainsAcross(a, ' ', b, "skill");
    ContainsAcross(a, ' ', b, "technical");
    ContainsAcross(a, ' ', b, "technology");
    ContainsAcross(a, ' ', b, "tech");
    ContainsInSuffix(a + " ", b, "develop");
    SkillsRuleIsSkillOrTech(q);
    DevelopShadowsFullStack(q);
  }

  /** Naming "full" before a space and "stack" after it satisfies the full-stack rule. */
  lemma FullSpaceStack(a: string, b: string)
    requires Contains(a, "full") && Contains(b, "stack")
    ensures MentionsFullStack(a + " " + b)
  {
    var q := a + " " + b;
    ContainsInSuffix(a + " ", b, "stack");
    ContainsPiece([], a, " " + b);
    assert [] + a + (" " + b) == q;
    ContainsTransitive(q, a, "full");
    FullStackRuleIsFullAndStack(q);
  }

  lemma WantFullStackDeveloperWords()
    ensures Contains("i want a full", "full")
    ensures Contains("stack developer", "stack")
    ensures Contains("stack developer", "develop")
  {
    ContainsFromOccurrence("i want a full", "full", 9);
    ContainsFromOccurrence("stack developer", "stack", 0);
    ContainsFromOccurrence("stack developer", "develop", 6);
  }

  /** A query that lower-cases to "i want a full stack developer" satisfies the full-stack rule,
      yet gets the projects answer because "developer" contains "develop". */
  lemma FullStackDeveloperAnswer(query: string, f: FactBase, w: Wording)
    requires ToLower(query) == "i want a full" + " " + "stack developer"
    ensures MentionsFullStack(ToLower(query))
    ensures Respond(query, f, w) == ProjectsAnswer(f, w)
  {
    WantFullStackDeveloperWords();
    FullStackDeveloper("i want a full", "stack developer");
    FullSpaceStack("i want a full", "stack developer");
  }

  /** The query "I want a full stack developer" gets the projects answer. */
  lemma FullStackDeveloperQuery(f: FactBase, w: Wording)
    ensures Respond("I want a full stack developer", f, w) == ProjectsAnswer(f, w)
  {
    FullStackDeveloperAnswer("I want a full stack developer", f, w);
  }

  /** A question over the letters of "how can i contact him?" that names "contact" gets the
      contact answer. */
  lemma ContactQuestion(q: string)
    requires forall x :: x in q ==> x in ContactQuestionAlphabet
    requires Contains(q, "contact")
    ensures Classify(q) == Contact
  {
    SkillsNeedLetters(q, ContactQuestionAlphabet, 's', 'e');
    ProjectsNeedLetters(q, ContactQuestionAlphabet, 'p', 'r', 'b', 'd');
    EducationNeedsLetters(q, ContactQuestionAlphabet, 'e', 's', 'u', 'l', 'd');
    FirstMatchWins(q, Contact);
  }

  /** "how can i contact him?" is classified as a contact question. */
  lemma ContactQuestionClassified()
    ensures Classify("how can i contact him?") == Contact
  {
    ContainsFromOccurrence("how can i contact him?", "contact", 10);
    ContactQuestion("how can i contact him?");
  }

  /** Any query that lower-cases to "how can i contact him?" gets the contact answer. */
  lemma ContactQueryAnswer(query: string, f: FactBase, w: Wording)
    requires ToLower(query) == "how can i contact him?"
    ensures Respond(query, f, w) == ContactAnswer(f, w)
  {
    ContactQuestionClassified();
  }

  /** "How can I contact him?" gets the contact answer. */
  lemma ContactQuery(f: FactBase, w: Wording)
    ensures Respond("How can I contact him?", f, w) == ContactAnswer(f, w)
  {
    ContactQueryAnswer("How can I contact him?", f, w);
  }

  /** Three words over the letters of "what is your", "favorite" and "color" match no rule. */
  lemma FavoriteColor(a: string, b: string, c: string)
    requires forall x :: x in a ==> x in "whatisyour "
    requires forall x :: x in b ==> x in "favorite"
    requires forall x :: x in c ==> x in "colr"
    ensures Classify(a + " " + b + " " + c) == Default
  {
    var ab := a + " " + b;
    var q := ab + " " + c;
    FavoriteColorLettersLackSkills(q);
    FavoriteColorLettersLackWholeRules(q);
    FavoriteColorLettersLackContact(q);
    FavoriteColorLettersLackMern(q);
    FavoriteColorSplitWords(a, b, c);
    MentionsAnyFour(q, "skill", "technical", "technology", "tech");
    MentionsAnyFive(q, "contact", "reach", "email", "phone", "hire");
    MentionsAnyFive(q, "mern", "mongo", "react", "express", "node");
    FullStackRuleIsFullAndStack(q);
  }

  /** The keywords whose letters all occur in "what is your favorite color" still occur in none of
      its three words, and so not across the spaces either. */
  lemma FavoriteColorSplitWords(a: string, b: string, c: string)
    requires forall x :: x in a ==> x in "whatisyour "
    requires forall x :: x in b ==> x in "favorite"
    requires forall x :: x in c ==> x in "colr"
    ensures !Contains(a + " " + b + " " + c, "tech")
    ensures !Contains(a + " " + b + " " + c, "reach")
    ensures !Contains(a + " " + b + " " + c, "hire")
    ensures !Contains(a + " " + b + " " + c, "react")
  {
    var ab := a + " " + b;
    LacksCharacter(a, "tech", 'e');
    LacksCharacter(b, "tech", 'c');
    LacksCharacter(c, "tech", 't');
    LacksCharacter(a, "reach", 'e');
    LacksCharacter(b, "reach", 'c');
    LacksCharacter(c, "reach", 'e');
    LacksCharacter(a, "hire", 'e');
    LacksCharacter(b, "hire", 'h');
    LacksCharacter(c, "hire", 'h');
    LacksCharacter(a, "react", 'e');
    LacksCharacter(b, "react", 'c');
    LacksCharacter(c, "react", 'e');
    ContainsAcross(a, ' ', b, "tech");
    ContainsAcross(ab, ' ', c, "tech");
    ContainsAcross(a, ' ', b, "reach");
    ContainsAcross(ab, ' ', c, "reach");
    ContainsAcross(a, ' ', b, "hire");
    ContainsAcross(ab, ' ', c, "hire");
    ContainsAcross(a, ' ', b, "react");
    ContainsAcross(ab, ' ', c, "react");
  }

  /** A query that lower-cases to "what is your favorite color" matches no rule and gets exactly
      the onboarding text. */
  lemma FavoriteColorAnswer(query: string, f: FactBase, w: Wording)
    requires ToLower(query) == "what is your" + " " + "favorite" + " " + "color"
    ensures Respond(query, f, w) == w.onboarding
  {
    FavoriteColor("what is your", "favorite", "color");
  }

  /** The query "what is your favorite color" gets the default answer. */
  lemma FavoriteColorQuery(f: FactBase, w: Wording)
    ensures Respond("what is your favorite color", f, w) == w.onboarding
  {
    FavoriteColorAnswer("what is your favorite color", f, w);
  }
}
