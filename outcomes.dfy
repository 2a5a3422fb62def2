/** Results of the operations: a value, or the Python exception / exit the
    tool raises for that input. */
module Outcomes {

  datatype Option<+T> = None | Some(value: T)

  /** The failure kinds of the modelled code.
      ValueError, KeyError and IndexError are the Python exceptions the code
      lets escape. DuplicateHost, DuplicateProjectName, UnknownMachine and
      UnknownProject are exits with a diagnostic, and Aborted is an exit
      without one. NotImplemented is a raised NotImplementedError, and
      ProvisioningFailed stands for an I/O or SSH failure while the remote
      machine is being set up. */
  datatype Error =
    | ValueError            // bad unpacking or a non-numeric int()
    | KeyError              // dict lookup of an absent key
    | IndexError            // [0] on an empty list
    | DuplicateHost         // "Machine with host ... already exists"
    | DuplicateProjectName  // "Project with name ... already exists"
    | UnknownMachine        // "Machine with id ... does not exists"
    | UnknownProject        // "Project with id ... does not exists"
    | Aborted               // the operator did not answer 'y'
    | NotImplemented        // NotImplementedError for a non-arch distro or an image
    | ProvisioningFailed    // the remote provisioning step failed

  datatype Result<+T> = Ok(value: T) | Err(error: Error)
}
