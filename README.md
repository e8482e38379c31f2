# Field specifications and REST form helpers of django-is-core, in Dafny

This project models two small parts of django-is-core.

REST utilities (`is_core/rest/utils.py`). The main part is the field-specification tree codec. A field
specification says which fields a REST handler exposes. For a related object it also says which of that
object's own fields are exposed. A specification has two forms:

- the nested sequence form (`FieldSpec.Entry`): a bare name, or a pair of a name and a nested specification;
- the tree-map form (`FieldSpec.Tree`): a map from name to sub-tree, where the empty map is a leaf.

The model covers the four conversions: `list_to_dict`, `dict_to_list`, `join_dicts` and `flat_list`. It also
covers `model_default_rest_fields`, which builds the default specification of a model from its field list.
Last, it covers the status-code table of `rc_factory` and its lookup, which raises `AttributeError` for an
unknown name.

REST form mixin (`is_core/forms/__init__.py`). `RestFormMixin.is_invalid` reshapes a form's error dictionary
into the answer the REST layer sends back. `RestFormMixin.merge_from_initial` fills in place the form data a
request left out.

How the model is laid out:

- Each operation has a specification function: `TreeOf`, `TopNames`, `Join`, `DefaultSpec`, `Rc`, `Report`
  and `Merged`.
- Each Python loop is a method named after the Python function. The method's postcondition ties its result,
  or the form's new state, to the specification function.
- `dict_to_list` iterates over a Python 2 dictionary, whose order is arbitrary. So `DictToList` chooses the
  next key freely, and its result is specified up to order by the predicate `Lists`.
- `join_dicts` is also characterised as the union of field paths (`HasPath`). Its commutativity, associativity
  and idempotence follow from that characterisation.
- Django's `is_valid()`, `errors` and `non_field_errors()` are inputs. They are fields of `Forms.RestForm`.
- The translated messages of the status table are kept in their untranslated English form.

The table maps `FORBIDDEN` to status 401, not 403 (`is_core/rest/utils.py:21`). The model keeps the table
as written.

## Model

| member | source | states |
|---|---|---|
| `FieldSpec.TopNames` | is_core/rest/utils.py:166-173 | the result has one name per entry, in order, and that name is the entry's own name, for a pair too |
| `FieldSpec.FlatList` | is_core/rest/utils.py:166-173 | the append loop of `flat_list` returns exactly `TopNames` of its input |
| `FieldSpec.TopNamesOfBareNames` | is_core/rest/utils.py:166-173 | a specification of bare names only comes back from `flat_list` unchanged |
| `FieldSpec.ListToDict` | is_core/rest/utils.py:132-139 | the loop of `list_to_dict`, with its recursive call on the children of a pair, returns exactly `TreeOf` of its input |
| `FieldSpec.TreeOf` | is_core/rest/utils.py:132-139 | `list_to_dict` binds the entries from left to right, a later entry overwriting an earlier one of the same name, so the keys of `list_to_dict(L)` are exactly the elements of `flat_list(L)` |
| `FieldSpec.TreeOfLastWins` | is_core/rest/utils.py:134-138 | an entry that no later entry overrides binds its name: a bare name to `{}`, a pair `(n, c)` to `list_to_dict(c)`; on a repeated name the later entry wins |
| `FieldSpec.EmptyPairIsLeaf` | is_core/rest/utils.py:135-138 | a pair with empty children converts exactly as the bare name would |
| `FieldSpec.Lists` | is_core/rest/utils.py:142-149 | a listing of a tree has one entry per key and no other, with distinct names; an entry is a bare name exactly when its sub-tree is a leaf, and a pair's children list that sub-tree; the listing has as many entries as the tree has keys |
| `FieldSpec.DictToList` | is_core/rest/utils.py:142-149 | `dict_to_list` gives one entry per key and no other, in some order: a bare name for an empty sub-tree, a pair whose children list the sub-tree otherwise; the result has as many entries as the tree has keys, and `list_to_dict` of it is the tree again |
| `FieldSpec.ListsRoundTrip` | is_core/rest/utils.py:132-149 | every listing of a tree, whatever its order, converts back to that tree: `list_to_dict(dict_to_list(T)) == T` |
| `FieldSpec.Join` | is_core/rest/utils.py:152-163 | the keys of the union are the keys of both inputs; a key only in the first keeps its sub-tree; a key of the second that is missing or a leaf in the first takes the second's sub-tree; a leaf in the second leaves the first's sub-tree; two non-leaf sub-trees are joined recursively |
| `FieldSpec.JoinDicts` | is_core/rest/utils.py:152-163 | the loop of `join_dicts` over the second argument's items, starting from a copy of the first, returns exactly `Join` of its inputs |
| `FieldSpec.JoinPaths` | is_core/rest/utils.py:152-163 | the union selects a field path exactly when one of its inputs selects it |
| `FieldSpec.JoinIdempotent` | is_core/rest/utils.py:152-163 | `join_dicts(A, A) == A` |
| `FieldSpec.JoinCommutative` | is_core/rest/utils.py:152-163 | `join_dicts(A, B) == join_dicts(B, A)` |
| `FieldSpec.JoinAssociative` | is_core/rest/utils.py:152-163 | `join_dicts(join_dicts(A, B), C) == join_dicts(A, join_dicts(B, C))` |
| `FieldSpec.JoinLeaf` | is_core/rest/utils.py:156-160 | joining with `{}` on either side gives the other argument back |
| `FieldSpec.DefaultSpec` | is_core/rest/utils.py:122-129 | one entry per model field, in order, with the field's name; the entry is a pair exactly for a related field, and its children are then `('id', '_obj_name', '_rest_links')` |
| `FieldSpec.ModelDefaultRestFields` | is_core/rest/utils.py:122-129 | the append loop of `model_default_rest_fields` returns exactly `DefaultSpec` of the field list |
| `FieldSpec.RelatedChildrenTree` | is_core/rest/utils.py:126 | the related sub-fields convert to a tree of three leaves, `id`, `_obj_name` and `_rest_links` |
| `FieldSpec.DefaultTree` | is_core/rest/utils.py:122-139 | for distinct field names, the tree of the default specification has exactly the field names as keys; it binds a related field to the three related leaves and any other field to `{}` |
| `FieldSpec.ExampleTreeOf` | is_core/rest/utils.py:132-139 | `list_to_dict([('company', [('zip', []), 'country']), 'id'])` is `{'company': {'zip': {}, 'country': {}}, 'id': {}}` |
| `FieldSpec.ExampleJoin` | is_core/rest/utils.py:152-163 | joining `{'a': {}, 'b': {'x': {}}}` with `{'b': {}, 'c': {}}` keeps `b`'s non-empty sub-tree |
| `FieldSpec.ExampleTopNames` | is_core/rest/utils.py:166-173 | `flat_list(['id', ('company', ['zip'])])` is `['id', 'company']` |
| `StatusCodes.Rc` | is_core/rest/utils.py:17-39 | `rc_factory.__getattr__`, which Python reaches only for names that are not ordinary attributes of the factory: a name raises `AttributeError(name)` exactly when it is not in `CODES`; otherwise the response carries that row's body and status with content type `text/plain` |
| `Forms.Report` | is_core/forms/__init__.py:12-30 | the result is an `IndexError` exactly when the form is invalid and some message list is empty. Otherwise: the answer is `False` exactly when the form is valid or has no key besides `__all__`, and there are no non-field errors. A returned dictionary is non-empty and never holds `__all__`. Each field key maps to the first message of its list, and only when the form is invalid. An invalid form reports every key but `__all__`. `non-field-errors` is present exactly when there are non-field errors (or an invalid form's errors hold that key); it holds the whole non-field list when there is one, and otherwise the first message of that key's list. A valid form can report only `non-field-errors` |
| `Forms.RestForm.IsInvalid` | is_core/forms/__init__.py:12-30 | building the dictionary of first messages, deleting `__all__` and adding `non-field-errors` gives exactly `Report` of the form's state |
| `Forms.Merged` | is_core/forms/__init__.py:39-42 | after the merge, the data holds every key it held with its old value, plus every form field; a newly filled field takes `initial[field]` if present, else the field's own `initial`; no other key appears |
| `Forms.MergedIdempotent` | is_core/forms/__init__.py:39-42 | merging a second time changes nothing |
| `Forms.RestForm.MergeFromInitial` | is_core/forms/__init__.py:39-42 | the loop over the fields missing from the data leaves `data` equal to `Merged` of the old data; only `data` changes |

## Left out

- `HttpResponseWrapper` and its `_set_content` (is_core/rest/utils.py:41-63) are not modelled. They are Django `HttpResponse` internals. `Rc` returns the body, content type and status the response is built from.
- `Mimer.translate` and `translate_mime` (is_core/rest/utils.py:72-109) are not modelled. Content-type negotiation and deserialisation belong to django-piston's loaders and to request I/O.
- `model_handlers_to_dict` (is_core/rest/utils.py:112-119) is not modelled. It walks piston's global handler registry and Django model metadata.
- `JsonObj` (is_core/rest/utils.py:176-179) is not modelled. It only turns attribute assignment into key assignment.
- `model_default_rest_fields` reads Django's `_meta.fields` and `isinstance(field, RelatedField)`. The model takes the field list as a sequence of (name, is-related) pairs.
- `AllFieldsUniqueValidationModelForm` and `RestModelForm` (is_core/forms/__init__.py:45-55) are not modelled. They are ORM uniqueness validation and class composition.
- Django's `is_valid()`, `errors` and `non_field_errors()` are not modelled. `RestForm` holds their answers as fields.
- `is_core/generic_views/inlines/inline_objects_views.py`, `is_core/auth_token/auth_views.py` and `is_core/forms/patch.py` are not part of this model. They are reflective view dispatch with template rendering, session login and logout, and a monkey-patch of Django widgets.
- Python duck typing: the model has no entry that is neither a name nor a pair. It also has no pair whose children are a bare string; the source would iterate over the string's characters. A longer tuple is read only through `val[0]` and `val[1]`, so a pair stands for it.
- `join_dicts` copies its first argument before changing anything (is_core/rest/utils.py:153) and never writes into the second, so neither input changes. Dafny values are immutable, and the model has that behaviour by construction.
- Malformed entries are not modelled: an integer, a dictionary, or a tuple shorter than two elements. The source has no check for them; a tuple shorter than two fails with `IndexError` at `val[1]` in `list_to_dict` (is_core/rest/utils.py:136), and an empty one also at `val[0]` in `flat_list` (is_core/rest/utils.py:170). The `Entry` type rules them out.
- A `join_dicts` argument that is not a dictionary is not modelled. The source fails at `.copy()` or `.items()` (is_core/rest/utils.py:153-155); the `Tree` type rules it out.
- A leaf is the empty map (`FieldSpec.IsLeaf`), as in the source, where an empty dictionary is a field without sub-fields; there is no separate leaf variant.
- `StatusCodes.Rc`: ordinary attributes of `rc_factory` (`CODES`, `__class__`, `__dict__`) are found before `__getattr__` is called and do not raise; the model covers only the `__getattr__` lookup.
- Aliasing is not modelled. `join_dicts` copies only the top level, so the result shares sub-dictionaries with its inputs. Values in the model cannot be shared or changed, so later mutation through such a shared reference is not captured.
- `FieldSpec.DictToList`: the order of its entries is left open, as the iteration order of a Python 2 dictionary is.
- `Forms.RestForm.IsInvalid`: Python raises `IndexError` at the first empty message list it meets. The model returns `Failure(IndexError)` and does not say which key was reached.
