/** The collaborator records the client keeps for a document. */
module CollabTypes {
  import opened Wrappers

  datatype Role = Owner | Editor | Viewer

  datatype Collaborator = Collaborator(id: string, name: string, image: Option<string>, role: Role)
}
