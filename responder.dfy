/**
  The chat widget's local responder (`getLocalResponse`): the lower-cased query is
  checked against keyword rules in a fixed order, and the first rule that matches
  renders its answer from the fact base. A query that matches no rule gets the
  onboarding answer.
 */
module Responder {
  import opened Text
  import opened Facts

  /** One bucket per rule, in the order the rules are tried, and the default answer. */
  datatype Topic = Skills | Projects | Education | Contact | Mern | FullStack | Python | Experience | Default

  /** A topic's position in the rule table: a rule with a smaller rank is tried first. */
  function Rank(t: Topic): nat {
    match t
    case Skills => 0
    case Projects => 1
    case Education => 2
    case Contact => 3
    case Mern => 4
    case FullStack => 5
    case Python => 6
    case Experience => 7
    case Default => 8
  }

  const SkillKeywords: seq<string> := ["skill", "technical", "technology", "tech"]
  const ProjectKeywords: seq<string> := ["project", "work", "build", "develop"]
  const EducationKeywords: seq<string> := ["education", "study", "university", "college", "degree"]
  const ContactKeywords: seq<string> := ["contact", "reach", "email", "phone", "hire"]
  const MernKeywords: seq<string> := ["mern", "mongo", "react", "express", "node"]
  const PythonKeywords: seq<string> := ["python"]
  const ExperienceKeywords: seq<string> := ["experience", "background", "about"]

  /** The "any keyword" policy: some keyword of the rule occurs in the query. */
  predicate MentionsAny(q: string, keywords: seq<string>) {
    exists k :: k in keywords && Contains(q, k)
  }

  /** The compound full-stack policy: "full" and "stack", or one of the two compact spellings. */
  predicate MentionsFullStack(q: string) {
    (Contains(q, "full") && Contains(q, "stack")) || Contains(q, "fullstack") || Contains(q, "full-stack")
  }

  /** Whether the rule for `t` accepts the lower-cased query `q`; the default accepts every query. */
  predicate Matches(t: Topic, q: string) {
    match t
    case Skills => MentionsAny(q, SkillKeywords)
    case Projects => MentionsAny(q, ProjectKeywords)
    case Education => MentionsAny(q, EducationKeywords)
    case Contact => MentionsAny(q, ContactKeywords)
    case Mern => MentionsAny(q, MernKeywords)
    case FullStack => MentionsFullStack(q)
    case Python => MentionsAny(q, PythonKeywords)
    case Experience => MentionsAny(q, ExperienceKeywords)
    case Default => true
  }

  /** The "any" policy over a literal keyword list is the disjunction of its `includes` tests. */
  lemma MentionsAnyOne(q: string, a: string)
    ensures MentionsAny(q, [a]) <==> Contains(q, a)
  {
  }

  lemma MentionsAnyThree(q: string, a: string, b: string, c: string)
    ensures MentionsAny(q, [a, b, c]) <==> Contains(q, a) || Contains(q, b) || Contains(q, c)
  {
  }

  lemma MentionsAnyFour(q: string, a: string, b: string, c: string, d: string)
    ensures MentionsAny(q, [a, b, c, d]) <==> Contains(q, a) || Contains(q, b) || Contains(q, c) || Contains(q, d)
  {
  }

  lemma MentionsAnyFive(q: string, a: string, b: string, c: string, d: string, e: string)
    ensures MentionsAny(q, [a, b, c, d, e]) <==>
      Contains(q, a) || Contains(q, b) || Contains(q, c) || Contains(q, d) || Contains(q, e)
  {
  }

  /** Each keyword rule, spelled out as the disjunction of `includes` tests the source writes. */
  lemma RuleGuards(q: string)
    ensures Matches(Skills, q) <==>
      Contains(q, "skill") || Contains(q, "technical") || Contains(q, "technology") || Contains(q, "tech")
    ensures Matches(Projects, q) <==>
      Contains(q, "project") || Contains(q, "work") || Contains(q, "build") || Contains(q, "develop")
    ensures Matches(Education, q) <==>
      Contains(q, "education") || Contains(q, "study") || Contains(q, "university") || Contains(q, "college")
      || Contains(q, "degree")
    ensures Matches(Contact, q) <==>
      Contains(q, "contact") || Contains(q, "reach") || Contains(q, "email") || Contains(q, "phone")
      || Contains(q, "hire")
    ensures Matches(Mern, q) <==>
      Contains(q, "mern") || Contains(q, "mongo") || Contains(q, "react") || Contains(q, "express")
      || Contains(q, "node")
    ensures Matches(Python, q) <==> Contains(q, "python")
    ensures Matches(Experience, q) <==>
      Contains(q, "experience") || Contains(q, "background") || Contains(q, "about")
  {
    MentionsAnyFour(q, "skill", "technical", "technology", "tech");
    MentionsAnyFour(q, "project", "work", "build", "develop");
    MentionsAnyFive(q, "education", "study", "university", "college", "degree");
    MentionsAnyFive(q, "contact", "reach", "email", "phone", "hire");
    MentionsAnyFive(q, "mern", "mongo", "react", "express", "node");
    MentionsAnyOne(q, "python");
    MentionsAnyThree(q, "experience", "background", "about");
  }

  /** The if-chain of `getLocalResponse` over an already lower-cased message, rule by rule in
      the source's order (`RuleGuards` spells each rule out as the `includes` tests it makes):
      the chosen rule matches, and no rule of smaller rank does. */
  function Classify(message: string): (t: Topic)
    ensures Matches(t, message)
    ensures forall u :: Rank(u) < Rank(t) ==> !Matches(u, message)
  {
    if Matches(Skills, message) then Skills
    else if Matches(Projects, message) then Projects
    else if Matches(Education, message) then Education
    else if Matches(Contact, message) then Contact
    else if Matches(Mern, message) then Mern
    else if Matches(FullStack, message) then FullStack
    else if Matches(Python, message) then Python
    else if Matches(Experience, message) then Experience
    else Default
  }

  // ---------------------------------------------------------------------------------------
  // Answer templates

  /** The fixed prose of the answers, around the facts they quote: the intro and outro of the
      three answers built from the fact base, and the whole text of the six that are not.
      `SourceWording` holds the agent's own text. */
  datatype Wording = Wording(
    skillsIntro: string, skillsOutro: string,
    projectsIntro: string, projectsOutro: string,
    contactIntro: string, contactOutro: string,
    education: string, mern: string, fullStack: string, python: string, experience: string,
    onboarding: string)

  /** Every piece of prose says something. */
  predicate Spoken(w: Wording) {
    && w.skillsIntro != [] && w.skillsOutro != [] && w.projectsIntro != [] && w.projectsOutro != []
    && w.contactIntro != [] && w.contactOutro != [] && w.education != [] && w.mern != []
    && w.fullStack != [] && w.python != [] && w.experience != [] && w.onboarding != []
  }

  const SkillsIntro := "Senthilnathan has strong technical skills across the full stack! His expertise includes:\n\n"
  const SkillsOutro :=
    "He's particularly strong in the MERN stack and has hands-on experience building complete web applications. "
    + "Would you like to know more about any specific technology or his projects?"

  /** The pieces of the skills answer: four filtered or joined lists from the fact base. */
  function SkillsPieces(f: FactBase, w: Wording): seq<string> {
    var s := f.skills;
    [ w.skillsIntro,
      "**Frontend:** ", Join(Filter(s.languages, ["HTML5", "CSS3", "JavaScript (ES6+)"]), ", "),
      ", along with ", Join(Filter(s.frameworks, ["React.js", "Bootstrap", "Redux"]), ", "), "\n\n",
      "**Backend:** ", Join(Filter(s.languages, ["Node.js", "Python"]), ", "),
      " with ", Join(Filter(s.frameworks, ["Express.js"]), ", "), "\n\n",
      "**Databases:** ", Join(s.databases, ", "), "\n\n",
      "**Tools:** ", Join(s.tools, ", "), "\n\n",
      w.skillsOutro ]
  }

  function SkillsAnswer(f: FactBase, w: Wording): string {
    Concat(SkillsPieces(f, w))
  }

  /** The pieces of one paragraph of the projects answer. */
  function ParagraphPieces(p: Project): seq<string> {
    [ "**", p.name, "** (", p.duration, "): ", p.description, ". Built with ",
      Join(p.technologies, ", "), ". Check it out at ", p.github ]
  }

  function ProjectParagraph(p: Project): string {
    Concat(ParagraphPieces(p))
  }

  /** `projects.map(...)`: one paragraph per project. */
  function ProjectParagraphs(ps: seq<Project>): (r: seq<string>)
    ensures |r| == |ps|
    ensures forall k :: 0 <= k < |ps| ==> r[k] == ProjectParagraph(ps[k])
    decreases |ps|
  {
    if ps == [] then [] else [ProjectParagraph(ps[0])] + ProjectParagraphs(ps[1..])
  }

  /** The paragraphs joined by blank lines. */
  function ProjectList(ps: seq<Project>): string {
    Join(ProjectParagraphs(ps), "\n\n")
  }

  const ProjectsIntro := "Senthilnathan has worked on some impressive full-stack projects:\n\n"
  const ProjectsOutro :=
    "\n\nBoth projects demonstrate his expertise in the MERN stack, REST APIs, user authentication, "
    + "and creating complete user experiences. He's experienced in building everything from e-commerce "
    + "platforms to content management systems!"

  function ProjectsAnswer(f: FactBase, w: Wording): string {
    Concat([w.projectsIntro, ProjectList(f.projects), w.projectsOutro])
  }

  /** The education answer is fixed text; it does not read the fact base. */
  const EducationAnswer :=
    "Senthilnathan is currently pursuing his **Bachelor of Technology in Computer Science and Engineering** "
    + "at Anand Institute Of Higher Technology, Chennai (2022\U{2013}2026) with an impressive CGPA of 8.2/10.\n\n"
    + "His educational background also includes:\n"
    + "- HSC from Kuyilappalayam Higher Secondary School (82%)\n"
    + "- SSLC from Government Higher Secondary School (70%)\n\n"
    + "He's also earned certifications in **Responsive Web Design** (freeCodeCamp) and completed "
    + "**Andrew Ng's Machine Learning Course** (Coursera), showing his commitment to continuous learning!"

  const LinkedInPrefix := "linkedin.com/in/"
  const ContactIntro := "You can reach Senthilnathan through several channels:\n\n"
  const ContactOutro :=
    "\n\nHe's actively seeking internship opportunities in full-stack development and would love to hear "
    + "from you! Feel free to reach out to discuss potential opportunities or collaborations."

  /** The pieces of the contact answer: the owner's channels, each on its own line. */
  function ContactPieces(f: FactBase, w: Wording): seq<string> {
    var p := f.personalInfo;
    [ w.contactIntro,
      "\U{1F4E7} **Email:** ", p.email, "\n",
      "\U{1F4F1} **Phone:** ", p.phone, "\n",
      "\U{1F310} **Portfolio:** ", p.portfolio, "\n",
      "\U{1F4BC} **LinkedIn:** ", LinkedInPrefix + p.linkedin, "\n",
      "\U{1F419} **GitHub:** ", p.github,
      w.contactOutro ]
  }

  function ContactAnswer(f: FactBase, w: Wording): string {
    Concat(ContactPieces(f, w))
  }

  const MernAnswer :=
    "Senthilnathan is highly skilled in the MERN stack! He has hands-on experience with:\n\n"
    + "**MongoDB:** Database design and management for both projects\n"
    + "**Express.js:** Building robust REST APIs with secure authentication\n"
    + "**React.js:** Creating interactive, responsive user interfaces\n"
    + "**Node.js:** Server-side development and API integration\n\n"
    + "His MERN projects include a complete e-commerce application with user authentication, shopping cart "
    + "functionality, and real-time search, plus a movie review platform with content moderation. "
    + "He understands the full development lifecycle from database design to deployment!"

  const FullStackAnswer :=
    "Senthilnathan is passionate about full-stack development! He has experience across the entire web "
    + "development spectrum:\n\n"
    + "**Frontend Development:** Creating responsive, interactive user interfaces with React.js, modern CSS, "
    + "and JavaScript ES6+\n\n"
    + "**Backend Development:** Building scalable APIs with Node.js/Express.js and Python, implementing "
    + "secure authentication with JWT\n\n"
    + "**Database Management:** Working with both SQL (MySQL) and NoSQL (MongoDB) databases\n\n"
    + "**DevOps & Tools:** Using Git/GitHub for version control, Postman for API testing, and various "
    + "development tools\n\n"
    + "His strength lies in understanding how all pieces work together to create seamless user experiences. "
    + "He's built complete applications from database design to user interface!"

  const PythonAnswer :=
    "Senthilnathan has solid Python skills and has completed Andrew Ng's Machine Learning course on "
    + "Coursera, which involved extensive Python programming. While his primary focus is on web development "
    + "with the MERN stack, his Python knowledge gives him versatility in backend development and data "
    + "analysis.\n\n"
    + "His Python experience complements his full-stack skills, making him adaptable to different "
    + "technology stacks depending on project requirements!"

  const ExperienceAnswer :=
    "Senthilnathan is an ambitious Computer Science undergraduate with strong practical experience in "
    + "full-stack development. Here's what makes him stand out:\n\n"
    + "\U{1F3AF} **Focus:** MERN stack development with 2+ years of hands-on experience\n"
    + "\U{1F3D7}\U{FE0F} **Project Experience:** Built complete web applications from scratch including "
    + "e-commerce and content management systems\n"
    + "\U{1F4DA} **Academic Excellence:** 8.2/10 CGPA in Computer Science Engineering\n"
    + "\U{1F527} **Technical Skills:** Proficient in modern web technologies, databases, and development tools\n"
    + "\U{1F9E0} **Problem-Solving:** Strong analytical thinking and attention to delivering quality user "
    + "experiences\n\n"
    + "He's actively seeking internship opportunities to apply his skills in real-world projects and "
    + "contribute to innovative software solutions!"

  const DefaultAnswer :=
    "Hello! I'm Senthilnathan's AI assistant. I can help you learn about his technical skills, projects, "
    + "education, and experience in full-stack development.\n\n"
    + "Some things you might want to ask about:\n"
    + "- His technical skills and expertise in MERN stack\n"
    + "- Details about his projects (e-commerce app, movie review platform)\n"
    + "- His educational background and certifications\n"
    + "- How to get in touch with him for opportunities\n"
    + "- His experience with full-stack development\n\n"
    + "What would you like to know about Senthilnathan? Feel free to ask me anything!"

  /** The agent's own wording. */
  const SourceWording: Wording := Wording(
    SkillsIntro, SkillsOutro, ProjectsIntro, ProjectsOutro, ContactIntro, ContactOutro,
    EducationAnswer, MernAnswer, FullStackAnswer, PythonAnswer, ExperienceAnswer, DefaultAnswer)

  /** The answer template of each topic, rendered against the fact base in the given wording. */
  function Render(t: Topic, f: FactBase, w: Wording): string {
    match t
    case Skills => SkillsAnswer(f, w)
    case Projects => ProjectsAnswer(f, w)
    case Education => w.education
    case Contact => ContactAnswer(f, w)
    case Mern => w.mern
    case FullStack => w.fullStack
    case Python => w.python
    case Experience => w.experience
    case Default => w.onboarding
  }

  /** `getLocalResponse(userMessage)`: lower-case, classify, render. The page's answers are
      `Respond(query, SenthilData(), SourceWording)`. */
  function Respond(query: string, f: FactBase, w: Wording): string {
    Render(Classify(ToLower(query)), f, w)
  }
}

module ResponderProperties {
  import opened Text
  import opened Facts
  import opened Responder

  /** Classification ignores case: a query and its lower-cased form get the same answer. */
  lemma RespondIsCaseInsensitive(query: string, f: FactBase, w: Wording)
    ensures Respond(query, f, w) == Respond(ToLower(query), f, w)
  {
    ToLowerIdempotent(query);
  }

  /** The first matching rule is the only answer: a topic whose rule matches while every
      earlier rule fails is exactly what `Classify` returns. */
  lemma FirstMatchWins(q: string, t: Topic)
    requires Matches(t, q)
    requires forall u :: Rank(u) < Rank(t) ==> !Matches(u, q)
    ensures Classify(q) == t
  {
    var c := Classify(q);
    assert Rank(c) < Rank(t) ==> !Matches(c, q);
    assert Rank(t) < Rank(c) ==> !Matches(t, q);
  }

  /** "technical" and "technology" add nothing to the skills rule: it fires exactly on "skill" or "tech". */
  lemma SkillsRuleIsSkillOrTech(q: string)
    ensures Matches(Skills, q) <==> Contains(q, "skill") || Contains(q, "tech")
  {
    RuleGuards(q);
    ContainsFromOccurrence("technical", "tech", 0);
    ContainsFromOccurrence("technology", "tech", 0);
    if Contains(q, "technical") {
      ContainsTransitive(q, "technical", "tech");
    }
    if Contains(q, "technology") {
      ContainsTransitive(q, "technology", "tech");
    }
  }

  /** A query that mentions "skill" or "tech", in any letter case and next to any other keywords,
      gets the skills answer. */
  lemma SkillMentionWins(query: string, word: string, f: FactBase, w: Wording)
    requires Contains(query, word)
    requires ToLower(word) == "skill" || ToLower(word) == "tech"
    ensures Respond(query, f, w) == SkillsAnswer(f, w)
  {
    ContainsToLower(query, word);
    SkillsRuleIsSkillOrTech(ToLower(query));
    FirstMatchWins(ToLower(query), Skills);
  }

  /** The compact spellings add nothing to the full-stack rule: "fullstack" and "full-stack" both
      contain "full" and "stack", so the rule fires exactly when both words occur. */
  lemma FullStackRuleIsFullAndStack(q: string)
    ensures MentionsFullStack(q) <==> Contains(q, "full") && Contains(q, "stack")
  {
    ContainsFromOccurrence("fullstack", "full", 0);
    ContainsFromOccurrence("fullstack", "stack", 4);
    ContainsFromOccurrence("full-stack", "full", 0);
    ContainsFromOccurrence("full-stack", "stack", 5);
    if Contains(q, "fullstack") {
      ContainsTransitive(q, "fullstack", "full");
      ContainsTransitive(q, "fullstack", "stack");
    }
    if Contains(q, "full-stack") {
      ContainsTransitive(q, "full-stack", "full");
      ContainsTransitive(q, "full-stack", "stack");
    }
  }

  /** "developer" contains "develop", so a query naming it is answered by the skills or the
      projects rule and never reaches the full-stack rule. */
  lemma DevelopShadowsFullStack(q: string)
    requires Contains(q, "develop")
    ensures Classify(q) == (if Matches(Skills, q) then Skills else Projects)
  {
    MentionsAnyFour(q, "project", "work", "build", "develop");
  }

  /** The default answer is given exactly when no keyword rule matches. */
  lemma DefaultIffNoRule(q: string)
    ensures Classify(q) == Default <==> forall u :: u != Default ==> !Matches(u, q)
  {
    if forall u :: u != Default ==> !Matches(u, q) {
      FirstMatchWins(q, Default);
    }
  }

  /** A query in which no rule finds a keyword gets exactly the onboarding text. */
  lemma NoKeywordGetsDefault(query: string, f: FactBase, w: Wording)
    requires forall u :: u != Default ==> !Matches(u, ToLower(query))
    ensures Respond(query, f, w) == w.onboarding
  {
    DefaultIffNoRule(ToLower(query));
  }

  /** In a wording whose every piece says something, every answer is non-empty. */
  lemma AnswerIsNonEmpty(query: string, f: FactBase, w: Wording)
    requires Spoken(w)
    ensures |Respond(query, f, w)| > 0
  {
    var t := Classify(ToLower(query));
    match t
    case Skills => JoinStartsWithFirst(SkillsPieces(f, w), "");
    case Projects => JoinStartsWithFirst([w.projectsIntro, ProjectList(f.projects), w.projectsOutro], "");
    case Contact => JoinStartsWithFirst(ContactPieces(f, w), "");
    case _ =>
  }

  /** The agent's own prose pieces are all non-empty, in three groups so that each proof
      expands only the texts it names; `SourceWording` is built from exactly these twelve. */
  lemma FramingProseIsNonEmpty()
    ensures SkillsIntro != [] && SkillsOutro != [] && ProjectsIntro != [] && ProjectsOutro != []
    ensures ContactIntro != [] && ContactOutro != []
  {
  }

  lemma TopicProseIsNonEmpty()
    ensures EducationAnswer != [] && MernAnswer != [] && FullStackAnswer != []
  {
  }

  lemma ClosingProseIsNonEmpty()
    ensures PythonAnswer != [] && ExperienceAnswer != [] && DefaultAnswer != []
  {
  }

  /** Every piece of the agent's own wording says something. */
  lemma SourceWordingIsSpoken()
    ensures Spoken(SourceWording)
  {
    FramingProseIsNonEmpty();
    TopicProseIsNonEmpty();
    ClosingProseIsNonEmpty();
  }

  /** Every answer the agent gives in its own wording is non-empty, whatever the fact base. */
  lemma PageAnswerIsNonEmpty(query: string, f: FactBase)
    ensures |Respond(query, f, SourceWording)| > 0
  {
    SourceWordingIsSpoken();
    AnswerIsNonEmpty(query, f, SourceWording);
  }

  /** The contact answer quotes every channel of the fact base verbatim. */
  lemma ContactAnswerQuotesChannels(f: FactBase, w: Wording)
    ensures Contains(ContactAnswer(f, w), f.personalInfo.email)
    ensures Contains(ContactAnswer(f, w), f.personalInfo.phone)
    ensures Contains(ContactAnswer(f, w), f.personalInfo.portfolio)
    ensures Contains(ContactAnswer(f, w), LinkedInPrefix + f.personalInfo.linkedin)
    ensures Contains(ContactAnswer(f, w), f.personalInfo.github)
  {
    var pieces := ContactPieces(f, w);
    JoinHoldsItem(pieces, "", 2);
    JoinHoldsItem(pieces, "", 5);
    JoinHoldsItem(pieces, "", 8);
    JoinHoldsItem(pieces, "", 11);
    JoinHoldsItem(pieces, "", 14);
  }

  /** A project paragraph names the project, its duration, description, technologies and repository. */
  lemma ParagraphDescribesProject(p: Project)
    ensures Contains(ProjectParagraph(p), p.name)
    ensures Contains(ProjectParagraph(p), p.duration)
    ensures Contains(ProjectParagraph(p), p.description)
    ensures Contains(ProjectParagraph(p), Join(p.technologies, ", "))
    ensures Contains(ProjectParagraph(p), p.github)
  {
    var pieces := ParagraphPieces(p);
    JoinHoldsItem(pieces, "", 1);
    JoinHoldsItem(pieces, "", 3);
    JoinHoldsItem(pieces, "", 5);
    JoinHoldsItem(pieces, "", 7);
    JoinHoldsItem(pieces, "", 9);
  }

  /** No field a project paragraph prints holds a line break. */
  predicate SingleLine(p: Project) {
    && '\n' !in p.name && '\n' !in p.duration && '\n' !in p.description && '\n' !in p.github
    && forall k :: 0 <= k < |p.technologies| ==> '\n' !in p.technologies[k]
  }

  /** The projects answer holds one paragraph per project, in fact-base order, separated by blank
      lines: splitting the list on "\n\n" gives back exactly the paragraphs. */
  lemma ProjectsAnswerLists(f: FactBase, w: Wording)
    requires |f.projects| > 0
    requires forall k :: 0 <= k < |f.projects| ==> SingleLine(f.projects[k])
    ensures Contains(ProjectsAnswer(f, w), ProjectList(f.projects))
    ensures Split(ProjectList(f.projects), "\n\n") == ProjectParagraphs(f.projects)
  {
    JoinHoldsItem([w.projectsIntro, ProjectList(f.projects), w.projectsOutro], "", 1);
    var paragraphs := ProjectParagraphs(f.projects);
    forall k | 0 <= k < |paragraphs| ensures '\n' !in paragraphs[k] {
      var p := f.projects[k];
      JoinAvoids(p.technologies, ", ", '\n');
      JoinAvoids(ParagraphPieces(p), "", '\n');
    }
    SplitJoin(paragraphs, "\n\n");
  }

  /** The skills answer lists every database and every tool of the fact base, and the frontend and
      backend lines list the fact base's languages and frameworks that fall in each category, in
      the fact base's order (`Filter` keeps exactly those, and `FilterAppend` says in what order). */
  lemma SkillsAnswerLists(f: FactBase, w: Wording)
    ensures Contains(SkillsAnswer(f, w), Join(f.skills.databases, ", "))
    ensures Contains(SkillsAnswer(f, w), Join(f.skills.tools, ", "))
    ensures Contains(SkillsAnswer(f, w), Join(Filter(f.skills.languages, ["HTML5", "CSS3", "JavaScript (ES6+)"]), ", "))
    ensures Contains(SkillsAnswer(f, w), Join(Filter(f.skills.frameworks, ["React.js", "Bootstrap", "Redux"]), ", "))
    ensures Contains(SkillsAnswer(f, w), Join(Filter(f.skills.languages, ["Node.js", "Python"]), ", "))
    ensures Contains(SkillsAnswer(f, w), Join(Filter(f.skills.frameworks, ["Express.js"]), ", "))
  {
    var ps := SkillsPieces(f, w);
    JoinHoldsItem(ps, "", 12);
    JoinHoldsItem(ps, "", 15);
    JoinHoldsItem(ps, "", 2);
    JoinHoldsItem(ps, "", 4);
    JoinHoldsItem(ps, "", 7);
    JoinHoldsItem(ps, "", 9);
  }
}
