// Option and Result values shared by every module, and the failures the
// Python code raises (all of them ValueError there).
module Basics {

  datatype Option<T> = None | Some(value: T)

  /** The error conditions of pythermodb_settings, one per raise site. */
  datatype Error =
    | NoComponentKeys        // neither component keys nor components were given
    | InvalidComponentKey    // key scheme outside the accepted set
    | InvalidCase            // set_component_id: case outside lower / upper / None
    | EmptyComponentList     // create_mixture_id([])
    | EmptySeparator         // str.split("") inside the key normaliser
    | NoSections             // the text holds no YAML section
    | NoReferenceSection     // no section whose content is a mapping
    | NotAMapping            // a loaded reference is not a mapping
    | NoCachedReference      // filter_components_from_data before load_ref
    | MissingOutputPath      // save_reference=True without output_path

  datatype Result<T> = Ok(value: T) | Err(error: Error)
}
