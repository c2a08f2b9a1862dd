/** A project's identity, shared by the preview manager and the sync codes. */
module Projects {
  datatype Project = Project(id: string)
}
