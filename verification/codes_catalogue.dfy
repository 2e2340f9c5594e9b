/** The exercise catalogue of the code browser (codes.js): `EXERCISES`
    and `EXAM_OPTI_VARIANTS`, without their display text. */
module CodesCatalogue {
  /** One exercise of `EXERCISES`. Its summary and C text are display data
      and are not part of this model. */
  datatype Exercise = Exercise(id: string, title: string, exam: string, target: string,
                               fileName: string, helpers: seq<string>)

  /** One entry of `EXAM_OPTI_VARIANTS`. */
  datatype Variant = Variant(fileName: string, helpers: seq<string>)

  /** `EXERCISES`, in catalogue order. */
  const Exercises: seq<Exercise> := [
    Exercise("union", "union", "EX2", "main", "union.c", ["init_seen", "print_unique_from"]),
    Exercise("atoi", "atoi", "EX2", "ft_atoi", "ft_atoi.c", ["is_space"]),
    Exercise("strdup", "strdup", "EX2", "ft_strdup", "ft_strdup.c", ["ft_strlen"]),
    Exercise("strrev", "strrev", "EX2", "ft_strrev", "ft_strrev.c", ["ft_strlen"]),
    Exercise("inter", "inter", "EX2", "main", "inter.c", ["init_tables", "mark_seen", "print_intersection"]),
    Exercise("last_word", "last_word", "EX2", "main", "last_word.c", ["is_space"]),
    Exercise("wdmatch", "wdmatch", "EX2", "main", "wdmatch.c", ["ft_strlen"]),
    Exercise("lstsize", "lstsize", "EX3", "ft_list_size", "ft_list_size.c", []),
    Exercise("range", "range", "EX3", "ft_range", "ft_range.c", ["ft_abs"]),
    Exercise("list_remove_if", "list_remove_if", "EX4", "ft_list_remove_if", "ft_list_remove_if.c",
      ["remove_head_matches"]),
    Exercise("lstforeach", "lstforeach", "EX4", "ft_list_foreach", "ft_list_foreach.c", []),
    Exercise("lstsort", "lstsort", "EX4", "sort_list", "sort_list.c", []),
    Exercise("split", "split", "EX4", "ft_split", "ft_split.c",
      ["is_sep", "count_words", "word_len", "copy_word", "free_words"]),
    Exercise("itoa", "itoa", "EX4", "ft_itoa", "ft_itoa.c", ["count_digits", "fill_digits_from_right"])]

  /** `EXAM_OPTI_VARIANTS`, keyed by exercise id. */
  const OptiVariants: map<string, Variant> := map[
    "itoa" := Variant("ft_itoa_opti_exam.c", ["ft_count_len"]),
    "lstforeach" := Variant("ft_list_foreach_opti_exam.c", []),
    "list_remove_if" := Variant("ft_list_remove_if_opti_exam.c", []),
    "lstsort" := Variant("sort_list_opti_exam.c", [])]
}
