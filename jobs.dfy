/** A job posting as the job board's pages receive it from the server. */
module Jobs {

  /** The fields the pages read. Text fields the server leaves out are
      empty strings here; `is_open` is its truthiness. */
  datatype Job = Job(
    id: int,
    title: string,
    description: string,
    location: string,
    jobType: string,
    isOpen: bool,
    requirements: string,
    responsibilities: string,
    benefits: string,
    openings: int)
}
