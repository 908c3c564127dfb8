/** Option, Result and the error values that the services hand back to their callers. */
module Wrappers {

  datatype Option<+T> = None | Some(value: T)

  /** The gRPC status codes the services report explicitly. */
  datatype Code = NotFound | Internal | Unimplemented

  /** Errors as they surface from the services (raw store errors propagate unchanged). */
  datatype Error =
    | RecordNotFound            // gorm.ErrRecordNotFound from a First query
    | UniqueViolation           // a UNIQUE index (or the primary key) rejected the write
    | DbFault                   // any other failure reported by the database
    | HashFailure               // bcrypt refused to hash the password
    | MailFailure               // the SMTP send failed
    | ProviderFailure           // the alias provider refused the forwarding rule
    | Status(code: Code, message: string)  // an explicit gRPC status error

  datatype Result<+T> = Ok(value: T) | Err(error: Error)
}
