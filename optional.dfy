/** The Some/None result the launcher uses for "resolved" and "refused",
    and for environment variables that may be unset. */
module Optional {
  datatype Option<+T> = None | Some(value: T)
}
