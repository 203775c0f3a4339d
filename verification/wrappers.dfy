/** The optional-value datatype used for absent properties and absent row attributes. */
module Wrappers {

  /** `None` stands for a property that is `undefined` or `null` in the component's props. */
  datatype Option<+T> = None | Some(value: T)
}
