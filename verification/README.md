# Quad-set loader model

A Dafny model of the track quad set of STK for Android (`jni/tracks/quad_set.cpp`).
A quad set is read from a document whose root element is `quads`. Each child
element named `quad` becomes a quad with four corners `p0`..`p3` and an optional
`invisible` flag. Quads are appended to an ordered list in document order, and
their corners are folded into a running bounding box whose start values are the
sentinels (99999, 99999, 99999) and (-99999, -99999, -99999).

A corner attribute is resolved by the colon rule of `QuadSet::getPoint`:
- Text whose first `:` stands at a position greater than 0 is a reference
  "n:p". It denotes vertex `p` of the already loaded quad `n`. `n` is the `atoi`
  of the text before the first colon, and `p` is the `atoi` of the field after it.
- Any other text, with no colon or with a colon in front, goes to the literal
  "x,y,z" point reader.

Layout:

- `geometry.dfy` (module `Geometry`): points with real coordinates and the
  component-wise `Min`/`Max` the box update uses.
- `xml_node.dfy` (module `XmlNode`): the document tree as a value and the reading
  of string and boolean attributes. The typed readers whose code is not part of
  this model are passed in as `Readers`.
- `string_utils.dfy` (module `StringUtils`): `find_first_of(":")` as `FirstColon`
  (with `npos` stored in an `int`, i.e. -1), the second colon-separated field,
  C's `atoi`, and a decimal writer used as the partner of `atoi` in round trips.
- `quad_set.dfy` (module `QuadSets`): the colon rule (`ParsePointSpec`),
  `getPoint` (`ResolvePoint`), the quad built from a child (`BuildQuad`), the
  loader's walk over the children as a function (`LoadNodes`), the bounding-box
  folds, and the class `QuadSet` whose methods update `allQuads`, `min` and `max`
  in place.
  - `LoadNodes` takes the per-child builder as a parameter, so its structural
    lemmas hold for any builder. The loader uses `QuadBuilder(r)`, which is
    `BuildQuad` where every corner resolves and `None` elsewhere.

Where the source's behaviour is undefined, the model demands well-formed input
instead. These cases are an index `n` or `p` out of range, and a reference with
nothing after its colon (`split` then yields a single field, which the code
indexes as `l[1]`).
- `ReferenceOk` states the condition for one corner.
- `Load` requires `BackwardReferences`: every reference in a "quad" child names
  a quad loaded before that child. `LoadNodesDefined` shows this is exactly the
  condition under which the walk `LoadNodes` is defined.

The comment above `getPoint` (`jni/tracks/quad_set.cpp:48-51`) calls a reference
"n:p". The code (lines 61-63) splits the text at every ':' and reads the vertex
index from the second field only, so "1:2:3" names vertex 2 of quad 1. The model
follows the code.

## Model

| member | source | states |
|---|---|---|
| Geometry.Vec3.Min | jni/tracks/quad_set.cpp:103 | the result lies below both points on every axis and takes each coordinate from one of them |
| Geometry.Vec3.Max | jni/tracks/quad_set.cpp:102 | the result lies above both points on every axis and takes each coordinate from one of them |
| StringUtils.FirstColon | jni/tracks/quad_set.cpp:58 | the position found is -1 or an index of `s` holding ':' |
| StringUtils.FirstColonSpec | jni/tracks/quad_set.cpp:58 | -1 exactly when `s` holds no ':', and no ':' precedes the position found |
| StringUtils.FirstColonAt | jni/tracks/quad_set.cpp:58 | a ':' with no ':' before it is the position found |
| StringUtils.FieldAt | jni/tracks/quad_set.cpp:61 | the field is a prefix of the text and is followed by ':' when shorter than the text |
| StringUtils.FieldAtHasNoColon | jni/tracks/quad_set.cpp:61 | the field holds no ':' |
| StringUtils.FieldOfDigits | jni/tracks/quad_set.cpp:61-63 | digits followed by nothing or by ':' form the whole field |
| StringUtils.DigitPrefix | jni/tracks/quad_set.cpp:62-63 | the digits `atoi` reads are a prefix of the text, all digits, and not followed by a digit |
| StringUtils.AtoiOfDigits | jni/tracks/quad_set.cpp:62-63 | the contract of `Atoi`: on text made of digits alone, `atoi` yields the decimal number the digits denote |
| StringUtils.AtoiOfDecimalText | jni/tracks/quad_set.cpp:62-63 | `atoi` reads back every number written in decimal |
| XmlNode.Attribute | jni/tracks/quad_set.cpp:56-57 | a non-empty string is only read from an attribute the element has |
| XmlNode.ReadFlag | jni/tracks/quad_set.cpp:98-99 | an element without the attribute keeps the default (`invisible` starts as false) |
| QuadSets.Quad.Vertex | jni/tracks/quad_set.cpp:64 | vertex i of a quad is its corner p_i, for i in 0..3 |
| QuadSets.ResolvePoint | jni/tracks/quad_set.cpp:53-71 | a corner is either the literal reader's point or a vertex of an already loaded quad |
| QuadSets.ColonRule | jni/tracks/quad_set.cpp:58-69 | the contract of `ParsePointSpec`: a corner text is read as a literal exactly when it holds no ':' or starts with one |
| QuadSets.ParseReferenceText | jni/tracks/quad_set.cpp:58-63 | "n:p", alone or followed by more ':'-fields, parses back to quad n and vertex p |
| QuadSets.ResolveLiteral | jni/tracks/quad_set.cpp:66-69 | text without ':' or with a leading ':' always resolves, to the literal reader's point |
| QuadSets.ResolveReference | jni/tracks/quad_set.cpp:58-64 | text whose first ':' stands at a position k > 0 resolves to vertex `atoi` of the field after k (up to the next ':') of quad `atoi(s[..k])`, both in range |
| QuadSets.ResolveReferenceText | jni/tracks/quad_set.cpp:59-64 | the text "n:p" resolves to vertex p of quad n when both exist |
| QuadSets.ResolveExample | jni/tracks/quad_set.cpp:50-64 | "0:2" resolves to vertex 2 of quad 0 |
| QuadSets.BuildQuad | jni/tracks/quad_set.cpp:93-100 | a quad is invisible only when its element has an `invisible` attribute |
| QuadSets.QuadNodes | jni/tracks/quad_set.cpp:84-92 | the children kept are all named "quad" and are no more than there are |
| QuadSets.QuadNodesMembers | jni/tracks/quad_set.cpp:84-92 | a child is kept exactly when it is named "quad" |
| QuadSets.LoadNodes | jni/tracks/quad_set.cpp:84-101 | a successful walk appends exactly one quad per child named "quad" and keeps the quads it started from |
| QuadSets.LoadNodesExtends | jni/tracks/quad_set.cpp:100-101 | processing more children never changes the quads already stored; a walk that succeeds succeeded on every prefix |
| QuadSets.LoadNodesInOrder | jni/tracks/quad_set.cpp:84-101 | the quad at position \|q\|+j is the one built from the j-th "quad" child against the quads before it |
| QuadSets.LoadNodesSnoc | jni/tracks/quad_set.cpp:84-101 | after a successful walk, one more child is processed against the quads loaded so far |
| QuadSets.LoadNodesNext | jni/tracks/quad_set.cpp:84-101 | the walk up to child i+1 is the walk up to child i followed by child i alone |
| QuadSets.LoadNodesDefinedBy | jni/tracks/quad_set.cpp:84-101 | for any builder defined exactly where a condition holds of the quad count and the child, the walk succeeds exactly when that condition holds of every "quad" child at its position |
| QuadSets.LoadNodesDefined | jni/tracks/quad_set.cpp:84-101 | the loader's walk succeeds exactly when every corner reference `getPoint` (lines 58-64) reads in the j-th "quad" child names one of the quads before it (`BackwardReferences`) |
| QuadSets.LoadedInDocumentOrder | jni/tracks/quad_set.cpp:86-101 | each loaded quad is `BuildQuad` of its "quad" child, with corners resolvable against the earlier quads |
| QuadSets.Children | jni/tracks/quad_set.cpp:77-85 | the root's children are walked when the document exists and its root is named "quads", and no child is walked otherwise |
| QuadSets.QuadMin | jni/tracks/quad_set.cpp:103 | the lowered corner lies below the old one and all four vertices, each coordinate from one of them |
| QuadSets.QuadMax | jni/tracks/quad_set.cpp:102 | the raised corner lies above the old one and all four vertices, each coordinate from one of them |
| QuadSets.FoldsAppend | jni/tracks/quad_set.cpp:102-103 | folding two lists in a row equals folding their concatenation |
| QuadSets.FoldsSplit | jni/tracks/quad_set.cpp:102-103 | the box of a suffix is its first part's box extended by the rest |
| QuadSets.BoundsEnclose | jni/tracks/quad_set.cpp:102-103 | every coordinate of every vertex lies between the box corners, and the corners never pass their start values (99999 / -99999 for the loader) |
| QuadSets.BoundsAttained | jni/tracks/quad_set.cpp:102-103 | each box coordinate is a start value or a coordinate of some vertex |
| QuadSets.BoundsOrdered | jni/tracks/quad_set.cpp:74-75 | with at least one quad, the lower corner lies below the upper one on every axis |
| QuadSets.BoundsMonotone | jni/tracks/quad_set.cpp:102-103 | more quads never raise the lower corner nor lower the upper one |
| QuadSets.QuadSet.constructor | jni/tracks/quad_set.cpp:31-33 | given references that point backwards, a fresh set holds exactly the quads of the document, and its box is the fold of all of them from the sentinels |
| QuadSets.QuadSet.AddQuad | jni/tracks/quad_set.cpp:93-103 | the quad built from the child is appended, earlier quads untouched, and its corners folded into the box |
| QuadSets.QuadSet.LoadChild | jni/tracks/quad_set.cpp:86-103 | one child is loaded as `LoadNodes` prescribes, the box extended by what it appends |
| QuadSets.QuadSet.LoadChildren | jni/tracks/quad_set.cpp:84-105 | the children are loaded as `LoadNodes` prescribes, the box extended by the appended quads |
| QuadSets.QuadSet.Load | jni/tracks/quad_set.cpp:73-107 | given that every reference of the j-th "quad" child names a quad loaded before it: the box is reset to the sentinels; the quads become `LoadNodes` of the old list and the children; the box is the fold of the appended quads; a missing file or a root not named "quads" leaves the list as it was and the box at the sentinels |

## Left out

- Diagnostics (`fprintf` and `printf`) are output only and are not modelled.
- Creating and deleting the tree (`file_manager->createXMLTree`, `delete xml`): the tree is an input, and a missing file is `None`.
- `XMLNode::get` for points and booleans: these are not part of this model and are supplied as the functions in `Readers`. Reading a string attribute is modelled as "empty when absent".
- `StringUtils::split` is not part of this model. Only its second field is modelled, as the text up to the next ':' with empty fields kept. A reference with nothing after its colon is excluded by precondition.
- `Atoi`: integers are unbounded, so the undefined behaviour of `atoi` on overflow is not modelled.
- Out-of-range quad or vertex indices and the missing second field are undefined behaviour in the code. The model requires them away (`ReferenceOk`) and does not model an error path.
- The destructor's delete-and-clear loop: quads are values in a sequence, so there is nothing to free.
- `Quad` and `Vec3::min`/`Vec3::max` are declared outside the files of this model. The quad is modelled as four corners and a flag, with `Vertex(p)` for `p` in 0..3. `min`/`max` are modelled as component-wise minimum and maximum.
- Float coordinates are modelled as reals: NaN and rounding are not modelled.
- `jni/utils/vec3.cpp` (trigonometry, Irrlicht conversions) and `jni/states_screens/feature_unlocked.hpp` (a GUI screen) lie outside the loader.
- The source's loop has its body inline; the model splits it into a loop method and a per-child method with the same effect.
