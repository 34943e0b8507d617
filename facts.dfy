/**
  The chat widget's fact base: the owner's résumé as an immutable record,
  built once when the agent is constructed and never changed afterwards.
 */
module Facts {

  datatype PersonalInfo = PersonalInfo(
    name: string,
    email: string,
    phone: string,
    portfolio: string,
    linkedin: string,
    github: string,
    location: string)

  datatype SkillSet = SkillSet(
    languages: seq<string>,
    frameworks: seq<string>,
    databases: seq<string>,
    tools: seq<string>,
    softSkills: seq<string>)

  /** An education entry carries either a CGPA or a percentage, both kept as display text. */
  datatype Score = Cgpa(cgpa: string) | Percentage(percentage: string)

  datatype EducationEntry = EducationEntry(
    institution: string,
    degree: string,
    duration: string,
    score: Score)

  datatype Project = Project(
    name: string,
    duration: string,
    github: string,
    description: string,
    features: seq<string>,
    technologies: seq<string>)

  datatype Certification = Certification(name: string, issuer: string)

  datatype FactBase = FactBase(
    personalInfo: PersonalInfo,
    summary: string,
    skills: SkillSet,
    education: seq<EducationEntry>,
    projects: seq<Project>,
    certifications: seq<Certification>,
    careerGoals: string,
    strengths: seq<string>)

  /** The fact base the agent builds in its constructor (`initializeSenthilData`). */
  function SenthilData(): FactBase {
    FactBase(
      PersonalInfo(
        "Senthilnathan R",
        "senthilragunathan2004@gmail.com",
        "+91-6374160496",
        "zeroday.fun",
        "senthil-nathan-r-467980334",
        "github.com/senthilnathan-2004",
        "Chennai, India"),
      "Ambitious Computer Science undergraduate seeking internship opportunities in Full Stack Development. "
      + "Skilled in building and deploying interactive web applications using MERN stack and Python frameworks "
      + "with a keen eye for problem solving and delivering high-quality user experiences.",
      SkillSet(
        ["HTML5", "CSS3", "JavaScript (ES6+)", "Python", "Node.js", "SQL"],
        ["React.js", "Express.js", "Bootstrap", "Redux"],
        ["MongoDB", "MySQL"],
        ["Git", "GitHub", "Postman", "VS Code"],
        ["Analytical Thinking", "Team Collaboration", "Problem Solving", "Communication"]),
      [ EducationEntry("Anand Institute Of Higher Technology, Chennai",
                       "Bachelor of Technology in Computer Science and Engineering",
                       "2022\U{2013}2026", Cgpa("8.2/10")),
        EducationEntry("Kuyilappalayam Higher Secondary School", "HSC", "2021\U{2013}2022", Percentage("82%")),
        EducationEntry("Government Higher Secondary School", "SSLC", "2019\U{2013}2020", Percentage("70%")) ],
      [ Project(
          "MERN Stack Meatshop Online Application",
          "Jul 2025 \U{2013} Present",
          "github.com/senthilnathan-2004/meatshop",
          "Full-stack meat e-commerce website using MongoDB, Express.js, React.js, and Node.js (MERN stack)",
          [ "User authentication, registration, and login using JSON Web Tokens (JWT) and hashed passwords",
            "Dynamic product listing, filtering by categories (Mutton, Fish), and responsive search with real-time suggestions",
            "Shopping cart with add/remove/update features, quantity management, and persistent cart via local storage",
            "REST API architecture for all CRUD operations with secure backend validation" ],
          ["MongoDB", "Express.js", "React.js", "Node.js", "JWT"]),
        Project(
          "MERN Stack Movie Review Application",
          "Mar 2024 \U{2013} Jun 2024",
          "github.com/senthilnathan-2004/movie2020",
          "Full stack web app that displays detailed movie descriptions and user-submitted reviews",
          [ "Built using REST API, Node.js, and Express.js",
            "Interactive frontend using React for searching and viewing movie details and submitting reviews",
            "Role-based moderation to manage abusive content and enhance review authenticity" ],
          ["React.js", "Node.js", "Express.js", "REST API", "MongoDB"]) ],
      [ Certification("Responsive Web Design Certification", "freeCodeCamp"),
        Certification("Machine Learning by Andrew Ng", "Coursera") ],
      "Seeking internship opportunities in Full Stack Development to apply my skills in real-world projects "
      + "and contribute to innovative software solutions.",
      [ "Strong foundation in MERN stack development",
        "Experience with both frontend and backend technologies",
        "Problem-solving mindset with analytical thinking",
        "Continuous learner with passion for new technologies",
        "Experience in building complete web applications from scratch" ])
  }
}
