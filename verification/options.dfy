/** The optional value used wherever the modelled code yields "no result"
    (TypeScript's `never` in the tuple algebra, a call the model does not follow). */
module Options {

  datatype Option<+T> = None | Some(value: T)

}
