/** The kinds of candidates the activity packs extract. */
module Kinds {

  datatype Kind = Memory | Preference | Task | Profile | Skill | Eval
}
