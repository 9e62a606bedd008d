/** The résumé snapshot that the generator reads. Every optional text field
    is a string in which "" stands for a missing value: the generator only
    ever tests these fields for truthiness, and undefined and "" are both
    falsy. A missing list is the empty sequence. */
module Resume {

  datatype Contact = Contact(
    fullName: string,
    headline: string,
    phone: string,
    email: string,
    location: string,
    website: string,
    linkedin: string)

  datatype Project = Project(
    name: string,
    title: string,
    startDate: string,
    endDate: string,
    location: string,
    url: string,
    description: string)

  datatype Experience = Experience(
    company: string,
    title: string,
    startDate: string,
    endDate: string,
    location: string,
    bullets: string)

  datatype Education = Education(
    school: string,
    degree: string,
    startDate: string,
    endDate: string,
    location: string,
    notes: string)

  datatype ResumeData = ResumeData(
    contact: Contact,
    education: seq<Education>,
    experience: seq<Experience>,
    projects: seq<Project>,
    skills: string)

  /** Which contact fields the configuration asks to render as links. */
  datatype LinkFlags = LinkFlags(email: bool, website: bool, linkedin: bool)

  datatype LatexConfig = LatexConfig(fontSize: int, asLinks: LinkFlags)
}
