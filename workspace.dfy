/** api/workspace.go: only the workspace user record is part of this model;
    fetching the users is network I/O. */
module ApiWorkspace {

  /** A workspace user as the service returns it. */
  datatype User = User(id: string, email: string, firstName: string, lastName: string)
}
